/** Routes through the building: the breadth-first search finds a shortest path, and joined routes are valid. */
module FleetGraph {
  import opened Outcomes

  datatype Node = Home | LockerF1 | StairF1F2 | RoboticsLabF2 | Other(name: string)

  type Edges = map<Node, seq<Node>>

  /** `edges.get(node, [])` */
  function Next(g: Edges, n: Node): seq<Node> { if n in g then g[n] else [] }

  /** Every step of the walk is an edge. */
  predicate Walk(g: Edges, p: seq<Node>) { p != [] && (|p| == 1 || (p[1] in Next(g, p[0]) && Walk(g, p[1..]))) }

  predicate WalkFromTo(g: Edges, p: seq<Node>, a: Node, b: Node) { Walk(g, p) && p[0] == a && p[|p| - 1] == b }

  /** `validate` */
  predicate Validate(g: Edges, route: seq<Node>) {
    route != [] && route[0] in g && forall i :: 0 <= i < |route| - 1 ==> route[i + 1] in Next(g, route[i])
  }

  lemma {:induction false} WalkSteps(g: Edges, p: seq<Node>)
    ensures Walk(g, p) <==> p != [] && forall i :: 0 <= i < |p| - 1 ==> p[i + 1] in Next(g, p[i])
  {
    if |p| > 1 {
      WalkSteps(g, p[1..]);
      if Walk(g, p) {
        forall i | 0 <= i < |p| - 1 ensures p[i + 1] in Next(g, p[i]) {
          if i > 0 { assert p[1..][i - 1 + 1] in Next(g, p[1..][i - 1]); }
        }
      }
      if forall i :: 0 <= i < |p| - 1 ==> p[i + 1] in Next(g, p[i]) {
        assert p[0 + 1] in Next(g, p[0]);
        forall i | 0 <= i < |p[1..]| - 1 ensures p[1..][i + 1] in Next(g, p[1..][i]) {
          assert p[i + 1 + 1] in Next(g, p[i + 1]);
        }
      }
    }
  }

  /** Validation accepts exactly the walks from a node that has edges of its own. */
  lemma WalksAreValid(g: Edges, p: seq<Node>)
    ensures Validate(g, p) <==> Walk(g, p) && p[0] in g
  {
    hide Walk;
    WalkSteps(g, p);
    if p == [] { assert !Walk(g, p); }
  }

  /** Joining two walks at a common node gives a walk. */
  lemma {:induction false} JoinWalks(g: Edges, p: seq<Node>, q: seq<Node>, a: Node, b: Node, c: Node)
    requires WalkFromTo(g, p, a, b) && WalkFromTo(g, q, b, c)
    ensures WalkFromTo(g, p + q[1..], a, c)
  {
    if |p| == 1 {
      assert p + q[1..] == q;
    } else {
      assert (p + q[1..])[1..] == p[1..] + q[1..];
      JoinWalks(g, p[1..], q, p[1], b, c);
    }
  }

  /** Joined routes from a known node always pass validation. */
  lemma JoinedRoutesAreValid(g: Edges, p: seq<Node>, q: seq<Node>, a: Node, b: Node, c: Node)
    requires WalkFromTo(g, p, a, b) && WalkFromTo(g, q, b, c) && a in g
    ensures Validate(g, p + q[1..])
  {
    JoinWalks(g, p, q, a, b, c);
    WalksAreValid(g, p + q[1..]);
  }

  lemma {:induction false} ExtendWalk(g: Edges, p: seq<Node>, n: Node)
    requires Walk(g, p) && n in Next(g, p[|p| - 1])
    ensures Walk(g, p + [n])
  {
    if |p| > 1 {
      assert (p + [n])[1..] == p[1..] + [n];
      ExtendWalk(g, p[1..], n);
    } else {
      assert (p + [n])[1..] == [n];
    }
  }

  // ---------------------------------------------------------------- distance

  /** `b` can be reached from `a` by a walk of at most `k` steps. */
  ghost predicate Near(g: Edges, a: Node, b: Node, k: nat) { exists p :: WalkFromTo(g, p, a, b) && |p| <= k + 1 }

  ghost predicate Reachable(g: Edges, a: Node, b: Node) { exists p :: WalkFromTo(g, p, a, b) }

  ghost predicate Shortest(g: Edges, p: seq<Node>, a: Node, b: Node) {
    WalkFromTo(g, p, a, b) && forall q :: WalkFromTo(g, q, a, b) ==> |p| <= |q|
  }

  /** The last step of a walk. */
  lemma {:induction false} LastStep(g: Edges, p: seq<Node>, a: Node, b: Node)
    requires WalkFromTo(g, p, a, b) && |p| > 1
    ensures WalkFromTo(g, p[..|p| - 1], a, p[|p| - 2]) && b in Next(g, p[|p| - 2])
  {
    if |p| > 2 {
      LastStep(g, p[1..], p[1], b);
      assert p[1..][..|p| - 2] == p[..|p| - 1][1..];
    } else {
      assert p[..1] == [p[0]];
    }
  }

  /** A set of nodes that has the start and is closed under edges has every reachable node. */
  lemma {:induction false} ClosedHasAll(g: Edges, seen: set<Node>, p: seq<Node>, a: Node, b: Node)
    requires WalkFromTo(g, p, a, b) && a in seen && forall n, m :: n in seen && m in Next(g, n) ==> m in seen
    ensures b in seen
  {
    if |p| > 1 { ClosedHasAll(g, seen, p[1..], p[1], b); }
  }

  // ---------------------------------------------------------------- the search

  datatype Visit = Visit(node: Node, path: seq<Node>)

  /** The queue holds discovered nodes with walks to them, of at most two adjacent lengths, the shorter first. */
  predicate QueueOk(g: Edges, start: Node, q: seq<Visit>, seen: set<Node>, d: nat) {
    && (forall i :: 0 <= i < |q| ==>
          q[i].node in seen && WalkFromTo(g, q[i].path, start, q[i].node) && d <= |q[i].path| <= d + 1)
    && (forall i, j :: 0 <= i < j < |q| ==> |q[i].path| <= |q[j].path|)
  }

  /** Nodes nearer than the current depth have been discovered, and no queued node is nearer than its walk says. */
  ghost predicate DepthOk(g: Edges, start: Node, q: seq<Visit>, seen: set<Node>, d: nat)
    requires d > 0
  {
    && (forall n :: Near(g, start, n, d - 1) ==> n in seen)
    && (forall i :: 0 <= i < |q| ==> forall p :: WalkFromTo(g, p, start, q[i].node) ==> |q[i].path| <= |p|)
  }

  predicate Queued(q: seq<Visit>, n: Node) { exists i :: 0 <= i < |q| && q[i].node == n }

  /** What is discovered and no longer queued has been expanded, and was not the end. */
  ghost predicate ExpandedOk(g: Edges, q: seq<Visit>, seen: set<Node>, end: Node) {
    forall n :: n in seen && !Queued(q, n) ==> n != end && forall m :: m in Next(g, n) ==> m in seen
  }

  /** The same while `node`, just taken from the queue, is being expanded. */
  ghost predicate ExpandedBut(g: Edges, q: seq<Visit>, seen: set<Node>, end: Node, node: Node) {
    forall n :: n in seen && !Queued(q, n) && n != node ==> n != end && forall m :: m in Next(g, n) ==> m in seen
  }

  /** The start and every target of an edge: the search discovers nothing else. */
  function Universe(g: Edges, start: Node): (u: set<Node>)
    ensures start in u
  {
    {start} + set n, m | n in g && m in g[n] :: m
  }

  lemma FartherThan(g: Edges, start: Node, q: seq<Visit>, seen: set<Node>, d: nat, i: nat, p: seq<Node>, m: Node)
    requires d > 0 && QueueOk(g, start, q, seen, d) && DepthOk(g, start, q, seen, d)
    requires q != [] && |q[0].path| == d + 1 && i < |q| && WalkFromTo(g, p, start, m) && |p| <= d
    ensures q[i].node != m
  {
    hide Walk;
    assert |q[0].path| <= |q[i].path|;
  }

  /** Once only walks of `d + 1` nodes are queued, everything one step further is discovered. */
  lemma DepthGrows(g: Edges, start: Node, end: Node, q: seq<Visit>, seen: set<Node>, d: nat)
    requires d > 0 && QueueOk(g, start, q, seen, d) && DepthOk(g, start, q, seen, d) && ExpandedOk(g, q, seen, end)
    requires q != [] && |q[0].path| == d + 1 && start in seen
    ensures QueueOk(g, start, q, seen, d + 1) && DepthOk(g, start, q, seen, d + 1)
  {
    forall n | Near(g, start, n, d) ensures n in seen {
      var p :| WalkFromTo(g, p, start, n) && |p| <= d + 1;
      if |p| > 1 {
        LastStep(g, p, start, n);
        var m := p[|p| - 2];
        assert Near(g, start, m, d - 1);
        forall i | 0 <= i < |q| ensures q[i].node != m { FartherThan(g, start, q, seen, d, i, p[..|p| - 1], m); }
      }
    }
  }

  /** Queueing a node discovered from the one being expanded. */
  lemma DiscoversInOrder(g: Edges, start: Node, q: seq<Visit>, seen: set<Node>, d: nat, from: Visit, next: Node)
    requires d > 0 && QueueOk(g, start, q, seen, d)
    requires WalkFromTo(g, from.path, start, from.node) && |from.path| == d && next in Next(g, from.node)
    ensures QueueOk(g, start, q + [Visit(next, from.path + [next])], seen + {next}, d)
  {
    hide Walk, Next;
    ExtendWalk(g, from.path, next);
  }

  lemma DiscoversNearest(g: Edges, start: Node, q: seq<Visit>, seen: set<Node>, d: nat, from: Visit, next: Node)
    requires d > 0 && DepthOk(g, start, q, seen, d) && |from.path| == d && next !in seen
    ensures DepthOk(g, start, q + [Visit(next, from.path + [next])], seen + {next}, d)
  {
    hide Walk;
    var k: nat := d - 1;
    forall p | WalkFromTo(g, p, start, next) ensures d + 1 <= |p| {
      assert |p| <= k + 1 ==> Near(g, start, next, k);
    }
  }

  lemma DiscoversQueued(g: Edges, end: Node, q: seq<Visit>, seen: set<Node>, node: Node, e: Visit)
    requires ExpandedBut(g, q, seen, end, node)
    ensures ExpandedBut(g, q + [e], seen + {e.node}, end, node)
  {
    hide Next;
    forall n | n in seen + {e.node} && !Queued(q + [e], n) ensures n in seen && !Queued(q, n) {
      assert (q + [e])[|q|].node == e.node;
      forall i | 0 <= i < |q| ensures q[i].node != n { assert (q + [e])[i].node == q[i].node; }
    }
  }

  /** Taking the head of the queue leaves only it unexpanded. */
  lemma TakesHead(g: Edges, start: Node, end: Node, q: seq<Visit>, seen: set<Node>, d: nat)
    requires d > 0 && q != [] && QueueOk(g, start, q, seen, d) && DepthOk(g, start, q, seen, d)
             && ExpandedOk(g, q, seen, end)
    ensures QueueOk(g, start, q[1..], seen, d) && DepthOk(g, start, q[1..], seen, d)
    ensures ExpandedBut(g, q[1..], seen, end, q[0].node)
  {
    forall n | n in seen && !Queued(q[1..], n) && n != q[0].node ensures !Queued(q, n) {
      forall i | 0 <= i < |q| ensures q[i].node != n {
        if i > 0 { assert q[1..][i - 1].node == q[i].node; }
      }
    }
  }

  lemma Expanded(g: Edges, q: seq<Visit>, seen: set<Node>, end: Node, node: Node)
    requires ExpandedBut(g, q, seen, end, node) && node != end && forall m :: m in Next(g, node) ==> m in seen
    ensures ExpandedOk(g, q, seen, end)
  {
  }

  /** With nothing queued, the end was not discovered and cannot be reached. */
  lemma NothingLeft(g: Edges, start: Node, end: Node, seen: set<Node>)
    requires start in seen && ExpandedOk(g, [], seen, end)
    ensures !Reachable(g, start, end)
  {
    forall n | n in seen ensures !Queued([], n) {}
    if Reachable(g, start, end) {
      var p :| WalkFromTo(g, p, start, end);
      ClosedHasAll(g, seen, p, start, end);
    }
  }

  lemma Starts(g: Edges, start: Node, end: Node)
    ensures (var q := [Visit(start, [start])];
             QueueOk(g, start, q, {start}, 1) && DepthOk(g, start, q, {start}, 1) && ExpandedOk(g, q, {start}, end))
  {
    var q := [Visit(start, [start])];
    assert q[0].node == start && Queued(q, start);
  }

  /** `arrange` lists the same neighbours in an order of its own, as sorting does. */
  ghost predicate Arranges(arrange: seq<Node> -> seq<Node>) {
    forall s: seq<Node>, n: Node :: n in arrange(s) <==> n in s
  }

  /**
   * `route`: the walk found is a shortest one, and none is found exactly when the end cannot be reached.
   * The neighbours are visited in the order of `arrange`.
   */
  method Route(g: Edges, arrange: seq<Node> -> seq<Node>, start: Node, end: Node) returns (r: Option<seq<Node>>)
    requires Arranges(arrange)
    ensures r.None? <==> !Reachable(g, start, end)
    ensures r.Some? ==> Shortest(g, r.value, start, end)
  {
    hide Walk, QueueOk, DepthOk, ExpandedOk, ExpandedBut, Queued, Reachable, Near, Shortest, WalkFromTo, Universe, Next;
    var q := [Visit(start, [start])];
    var seen := {start};
    ghost var d := 1;
    Starts(g, start, end);
    while q != []
      invariant d > 0 && start in seen && seen <= Universe(g, start)
      invariant QueueOk(g, start, q, seen, d) && DepthOk(g, start, q, seen, d) && ExpandedOk(g, q, seen, end)
      decreases |Universe(g, start) - seen|, |q|
    {
      var head := q[0];
      HeadIs(g, start, end, q, seen, d);
      if |head.path| == d + 1 {
        DepthGrows(g, start, end, q, seen, d);
        d := d + 1;
      }
      if head.node == end { return Some(head.path); }
      TakesHead(g, start, end, q, seen, d);
      q := q[1..];
      var next := arrange(Next(g, head.node));
      ghost var before := seen;
      ghost var left := |q|;
      var i := 0;
      while i < |next|
        invariant 0 <= i <= |next| && before <= seen <= Universe(g, start)
        invariant seen == before ==> |q| == left
        invariant QueueOk(g, start, q, seen, d) && DepthOk(g, start, q, seen, d)
                  && ExpandedBut(g, q, seen, end, head.node)
        invariant forall k :: 0 <= k < i ==> next[k] in seen
      {
        if next[i] !in seen {
          assert next[i] in next && next[i] in Next(g, head.node);
          DiscoversInOrder(g, start, q, seen, d, head, next[i]);
          DiscoversNearest(g, start, q, seen, d, head, next[i]);
          DiscoversQueued(g, end, q, seen, head.node, Visit(next[i], head.path + [next[i]]));
          InUniverse(g, start, head.node, next[i]);
          q := q + [Visit(next[i], head.path + [next[i]])];
          seen := seen + {next[i]};
        }
        i := i + 1;
      }
      forall m | m in Next(g, head.node) ensures m in seen { assert m in next; }
      Expanded(g, q, seen, end, head.node);
      if seen != before { FewerLeft(before, seen, Universe(g, start)); }
    }
    NothingLeft(g, start, end, seen);
    r := None;
  }

  lemma InUniverse(g: Edges, start: Node, n: Node, m: Node)
    requires m in Next(g, n)
    ensures m in Universe(g, start)
  {
  }

  lemma HeadIs(g: Edges, start: Node, end: Node, q: seq<Visit>, seen: set<Node>, d: nat)
    requires d > 0 && q != [] && QueueOk(g, start, q, seen, d) && DepthOk(g, start, q, seen, d)
    ensures WalkFromTo(g, q[0].path, start, q[0].node) && d <= |q[0].path| <= d + 1 && q[0].node in seen
    ensures Shortest(g, q[0].path, start, q[0].node) && Reachable(g, start, q[0].node)
  {
  }

  lemma FewerLeft<T>(a: set<T>, b: set<T>, u: set<T>)
    requires a <= b <= u && a != b
    ensures |u - b| < |u - a|
  {
    var x :| x in b && x !in a;
    assert u - b <= u - a - {x};
    Smaller(u - b, u - a - {x});
  }

  lemma {:induction false} Smaller<T>(a: set<T>, b: set<T>)
    requires a <= b
    ensures |a| <= |b|
  {
    if a != {} {
      var x :| x in a;
      Smaller(a - {x}, b - {x});
    }
  }

  // ---------------------------------------------------------------- the building

  const BUILDING: Edges := map[
    Home := [LockerF1],
    LockerF1 := [Home, StairF1F2],
    StairF1F2 := [LockerF1, RoboticsLabF2],
    RoboticsLabF2 := [StairF1F2]]

  const MISSION_ROUTE: seq<Node> := [Home, LockerF1, StairF1F2, RoboticsLabF2, StairF1F2, LockerF1, Home]

  lemma OneShorter(p: seq<Node>, a: Node, b: Node)
    requires WalkFromTo(BUILDING, p, a, b) && a != b
    ensures |p| > 1 && p[1] in Next(BUILDING, a) && WalkFromTo(BUILDING, p[1..], p[1], b)
  {
  }

  lemma EdgesAre()
    ensures Next(BUILDING, Home) == [LockerF1] && Next(BUILDING, LockerF1) == [Home, StairF1F2]
    ensures Next(BUILDING, StairF1F2) == [LockerF1, RoboticsLabF2] && Next(BUILDING, RoboticsLabF2) == [StairF1F2]
  {
  }

  lemma FirstLeg(p: seq<Node>)
    requires Shortest(BUILDING, p, Home, LockerF1)
    ensures p == [Home, LockerF1]
  {
    EdgesAre();
    assert WalkFromTo(BUILDING, [Home, LockerF1], Home, LockerF1) by { WalkSteps(BUILDING, [Home, LockerF1]); }
    OneShorter(p, Home, LockerF1);
  }

  lemma SecondLeg(p: seq<Node>)
    requires Shortest(BUILDING, p, LockerF1, RoboticsLabF2)
    ensures p == [LockerF1, StairF1F2, RoboticsLabF2]
  {
    hide Next, Walk;
    var w := [LockerF1, StairF1F2, RoboticsLabF2];
    EdgesAre();
    assert WalkFromTo(BUILDING, w, LockerF1, RoboticsLabF2) by { WalkSteps(BUILDING, w); }
    OneShorter(p, LockerF1, RoboticsLabF2);
    OneShorter(p[1..], p[1], RoboticsLabF2);
  }

  lemma ThirdLeg(p: seq<Node>)
    requires Shortest(BUILDING, p, RoboticsLabF2, Home)
    ensures p == [RoboticsLabF2, StairF1F2, LockerF1, Home]
  {
    hide Next, Walk;
    var w := [RoboticsLabF2, StairF1F2, LockerF1, Home];
    EdgesAre();
    assert WalkFromTo(BUILDING, w, RoboticsLabF2, Home) by { WalkSteps(BUILDING, w); }
    OneShorter(p, RoboticsLabF2, Home);
    OneShorter(p[1..], StairF1F2, Home);
    assert p[1..][1..] == p[2..];
    OneShorter(p[2..], p[2], Home);
  }

  /** The mission's three legs have only one shortest route each, and joined they pass validation. */
  lemma MissionRouteIs(p: seq<Node>, q: seq<Node>, r: seq<Node>)
    requires Shortest(BUILDING, p, Home, LockerF1) && Shortest(BUILDING, q, LockerF1, RoboticsLabF2)
    requires Shortest(BUILDING, r, RoboticsLabF2, Home)
    ensures p + q[1..] + r[1..] == MISSION_ROUTE && Validate(BUILDING, MISSION_ROUTE)
  {
    hide Walk, Shortest;
    FirstLeg(p);
    SecondLeg(q);
    ThirdLeg(r);
  }
}
