/** Directed graphs: what a set of sources reaches, in how many hops, and along which walks. */
module Graph {
  type Adjacency = map<nat, set<nat>>

  function Next(g: Adjacency, u: nat): set<nat> { if u in g then g[u] else {} }

  function Image(g: Adjacency, s: set<nat>): set<nat> { set u, v | u in s && v in Next(g, u) :: v }

  /** Everything within `k` hops. */
  ghost function Ball(g: Adjacency, sources: set<nat>, k: nat): set<nat>
  {
    if k == 0 then sources else Ball(g, sources, k - 1) + Image(g, Ball(g, sources, k - 1))
  }

  ghost predicate Reaches(g: Adjacency, sources: set<nat>, v: nat)
  {
    exists k: nat :: v in Ball(g, sources, k)
  }

  ghost predicate Closed(g: Adjacency, s: set<nat>) { Image(g, s) <= s }

  lemma {:induction false} BallMonotone(g: Adjacency, sources: set<nat>, j: nat, k: nat)
    requires j <= k
    ensures Ball(g, sources, j) <= Ball(g, sources, k)
  {
    if j < k { BallMonotone(g, sources, j, k - 1); }
  }

  lemma {:induction false} BallWithin(g: Adjacency, sources: set<nat>, s: set<nat>, k: nat)
    requires sources <= s && Closed(g, s)
    ensures Ball(g, sources, k) <= s
  {
    if k > 0 { BallWithin(g, sources, s, k - 1); }
  }

  /** The hop count of a reachable node. */
  ghost function Hops(g: Adjacency, sources: set<nat>, v: nat): (k: nat)
    requires Reaches(g, sources, v)
    ensures v in Ball(g, sources, k)
    ensures forall j: nat :: v in Ball(g, sources, j) ==> k <= j
  {
    var k: nat :| v in Ball(g, sources, k);
    LeastHops(g, sources, v, k)
  }

  ghost function LeastHops(g: Adjacency, sources: set<nat>, v: nat, k: nat): (r: nat)
    requires v in Ball(g, sources, k)
    ensures v in Ball(g, sources, r)
    ensures forall j: nat :: v in Ball(g, sources, j) ==> r <= j
  {
    if k > 0 && v in Ball(g, sources, k - 1) then LeastHops(g, sources, v, k - 1) else
      assert forall j: nat :: v in Ball(g, sources, j) ==> k <= j by {
        forall j: nat | v in Ball(g, sources, j) ensures k <= j {
          if j < k { BallMonotone(g, sources, j, k - 1); }
        }
      }
      k
  }

  // ---- the reachable set -------------------------------------------------

  /** Every node the graph mentions. */
  function Universe(g: Adjacency, sources: set<nat>): set<nat> { sources + g.Keys + Image(g, g.Keys) }

  /** Add successors until nothing changes. */
  ghost function Saturate(g: Adjacency, sources: set<nat>, s: set<nat>): (r: set<nat>)
    requires s <= Universe(g, sources)
    decreases Universe(g, sources) - s
  {
    if Closed(g, s) then s else
      assert Image(g, s) <= Universe(g, sources);
      Saturate(g, sources, s + Image(g, s))
  }

  ghost function Closure(g: Adjacency, sources: set<nat>): set<nat> { Saturate(g, sources, sources) }

  lemma {:induction false} SaturateMeaning(g: Adjacency, sources: set<nat>, s: set<nat>, k: nat)
    requires s == Ball(g, sources, k) <= Universe(g, sources)
    ensures Closed(g, Saturate(g, sources, s)) && s <= Saturate(g, sources, s)
    ensures forall v :: v in Saturate(g, sources, s) ==> Reaches(g, sources, v)
    decreases Universe(g, sources) - s
  {
    if Closed(g, s) {
      forall v | v in s ensures Reaches(g, sources, v) { assert v in Ball(g, sources, k); }
    } else {
      assert Image(g, s) <= Universe(g, sources);
      SaturateMeaning(g, sources, s + Image(g, s), k + 1);
    }
  }

  /** The computed closure is exactly what is reachable. */
  lemma ClosureIsReachable(g: Adjacency, sources: set<nat>)
    ensures forall v :: v in Closure(g, sources) <==> Reaches(g, sources, v)
    ensures Closed(g, Closure(g, sources)) && sources <= Closure(g, sources)
  {
    SaturateMeaning(g, sources, sources, 0);
    forall v | Reaches(g, sources, v) ensures v in Closure(g, sources) {
      var k: nat :| v in Ball(g, sources, k);
      BallWithin(g, sources, Closure(g, sources), k);
    }
  }

  /** A closed set around the sources that holds only reachable nodes is the closure. */
  lemma ClosureUnique(g: Adjacency, sources: set<nat>, s: set<nat>)
    requires sources <= s && Closed(g, s) && forall v :: v in s ==> Reaches(g, sources, v)
    ensures s == Closure(g, sources)
  {
    ClosureIsReachable(g, sources);
    forall v | Reaches(g, sources, v) ensures v in s {
      var k: nat :| v in Ball(g, sources, k);
      BallWithin(g, sources, s, k);
    }
  }

  lemma ReachesStep(g: Adjacency, sources: set<nat>, u: nat, v: nat)
    requires Reaches(g, sources, u) && v in Next(g, u)
    ensures Reaches(g, sources, v)
  {
    var k: nat :| u in Ball(g, sources, k);
    assert v in Ball(g, sources, k + 1);
  }

  lemma ReachesSource(g: Adjacency, sources: set<nat>, v: nat)
    requires v in sources
    ensures Reaches(g, sources, v)
  {
    assert v in Ball(g, sources, 0);
  }

  lemma Shrinks(universe: set<nat>, before: set<nat>, after: set<nat>)
    requires before <= after <= universe
    ensures after == before || universe - after < universe - before
  {
    if v :| v in after && v !in before {
      assert v in universe - before && v !in universe - after;
    }
  }

  // ---- walks -------------------------------------------------------------

  /** A walk that starts at a source and follows edges. */
  ghost predicate Walk(g: Adjacency, sources: set<nat>, walk: seq<nat>) {
    walk != [] && walk[0] in sources && forall i :: 0 <= i < |walk| - 1 ==> walk[i + 1] in Next(g, walk[i])
  }

  lemma {:induction false} WalkReaches(g: Adjacency, sources: set<nat>, walk: seq<nat>)
    requires Walk(g, sources, walk)
    ensures Reaches(g, sources, walk[|walk| - 1])
  {
    if |walk| == 1 {
      ReachesSource(g, sources, walk[0]);
    } else {
      var n := |walk| - 1;
      WalkReaches(g, sources, walk[..n]);
      ReachesStep(g, sources, walk[n - 1], walk[n]);
    }
  }

  lemma {:induction false} BallHasWalk(g: Adjacency, sources: set<nat>, v: nat, k: nat) returns (walk: seq<nat>)
    requires v in Ball(g, sources, k)
    ensures Walk(g, sources, walk) && walk[|walk| - 1] == v && |walk| <= k + 1
    decreases k
  {
    if k == 0 {
      walk := [v];
    } else if v in Ball(g, sources, k - 1) {
      walk := BallHasWalk(g, sources, v, k - 1);
    } else {
      var u :| u in Ball(g, sources, k - 1) && v in Next(g, u);
      walk := BallHasWalk(g, sources, u, k - 1);
      walk := walk + [v];
    }
  }

  /** Reachable means: at the end of a walk. */
  lemma ReachableByWalk(g: Adjacency, sources: set<nat>, v: nat)
    ensures Reaches(g, sources, v) <==> exists walk :: Walk(g, sources, walk) && walk[|walk| - 1] == v
  {
    if Reaches(g, sources, v) {
      var k: nat :| v in Ball(g, sources, k);
      var walk := BallHasWalk(g, sources, v, k);
    }
    if walk :| Walk(g, sources, walk) && walk[|walk| - 1] == v {
      WalkReaches(g, sources, walk);
    }
  }

  // ---- changes out of reach ----------------------------------------------

  /** The graphs agree on the out-edges of everything reachable in the first. */
  ghost predicate AgreeWithinReach(g: Adjacency, h: Adjacency, sources: set<nat>) {
    forall u :: Reaches(g, sources, u) ==> Next(g, u) == Next(h, u)
  }

  /** Edges out of unreachable nodes change no hop count. */
  lemma {:induction false} SameBalls(g: Adjacency, h: Adjacency, sources: set<nat>, k: nat)
    requires AgreeWithinReach(g, h, sources)
    ensures Ball(g, sources, k) == Ball(h, sources, k)
  {
    if k > 0 {
      SameBalls(g, h, sources, k - 1);
      forall u | u in Ball(g, sources, k - 1) ensures Next(g, u) == Next(h, u) {
        assert Reaches(g, sources, u);
      }
      assert Image(g, Ball(g, sources, k - 1)) == Image(h, Ball(g, sources, k - 1));
    }
  }

  lemma SameReach(g: Adjacency, h: Adjacency, sources: set<nat>)
    requires AgreeWithinReach(g, h, sources)
    ensures forall v :: Reaches(g, sources, v) <==> Reaches(h, sources, v)
    ensures Closure(g, sources) == Closure(h, sources)
  {
    forall v ensures Reaches(g, sources, v) <==> Reaches(h, sources, v) {
      if Reaches(g, sources, v) {
        var k: nat :| v in Ball(g, sources, k);
        SameBalls(g, h, sources, k);
        assert v in Ball(h, sources, k);
      }
      if Reaches(h, sources, v) {
        var k: nat :| v in Ball(h, sources, k);
        SameBalls(g, h, sources, k);
        assert v in Ball(g, sources, k);
      }
    }
    ClosureIsReachable(g, sources);
    ClosureIsReachable(h, sources);
  }

  lemma SameHops(g: Adjacency, h: Adjacency, sources: set<nat>, v: nat)
    requires AgreeWithinReach(g, h, sources) && Reaches(g, sources, v) && Reaches(h, sources, v)
    ensures Hops(g, sources, v) == Hops(h, sources, v)
  {
    SameBalls(g, h, sources, Hops(g, sources, v));
    SameBalls(g, h, sources, Hops(h, sources, v));
  }

  /** More edges reach no less. */
  lemma {:induction false} BallGrows(g: Adjacency, h: Adjacency, sources: set<nat>, k: nat)
    requires forall u :: Next(g, u) <= Next(h, u)
    ensures Ball(g, sources, k) <= Ball(h, sources, k)
  {
    if k > 0 { BallGrows(g, h, sources, k - 1); }
  }
}
