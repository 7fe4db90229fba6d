/** Who passes what to whom in the rank, and who starts with what: research/scoring-sim/tg.py:45-126. */
module RankLaws {
  import opened Wrappers
  import opened Totals
  import opened FixedPoint
  import opened PageRank
  import opened DecaySearch
  import Bfs

  function WithMultiplier(cfg: Cfg, m: int): Cfg { cfg.(trustMultiplier := m) }

  // ---- along one edge -----------------------------------------------------------

  lemma NonSeedRow(cfg: Cfg, net: Network, a: nat, m: int)
    requires a !in cfg.seeds
    ensures Row(cfg, net, a) == Row(WithMultiplier(cfg, m), net, a)
  {
  }

  /** The multiplier reaches nobody but the seeds. */
  lemma NonSeedUnboosted(cfg: Cfg, net: Network, hops: Hopcounts, current: map<nat, int>, a: nat, r: nat, m: int)
    requires a !in cfg.seeds
    ensures Contribution(cfg, net, hops, current, a, r)
      == Contribution(WithMultiplier(cfg, m), net, hops, current, a, r)
  {
    NonSeedRow(cfg, net, a, m);
  }

  /** The row as listed, unless its weights are boosted inside it. */
  lemma PlainRowTotal(cfg: Cfg, net: Network, a: nat)
    requires !cfg.fixMultiplier || a !in cfg.seeds
    ensures Total(Row(cfg, net, a)) == Total(CarryingRow(a, Edges(net, a)))
  {
    TotalPadded(CarryingRow(a, Edges(net, a)), Row(cfg, net, a));
  }

  function BoostedRow(a: nat, edges: map<nat, int>, m: int): map<nat, int>
  {
    map t | t in edges && t != a && edges[t] != 0 :: FpMul(edges[t], m)
  }

  lemma BoostedRowTotal(cfg: Cfg, net: Network, a: nat)
    requires cfg.fixMultiplier && a in cfg.seeds
    ensures Total(Row(cfg, net, a)) == Total(BoostedRow(a, Edges(net, a), cfg.trustMultiplier))
  {
    TotalPadded(BoostedRow(a, Edges(net, a), cfg.trustMultiplier), Row(cfg, net, a));
  }

  /** A fraction of a score, decayed and then damped, floored at each step. */
  function Passed(damping: int, decay: int, score: int, ratio: int): int
  {
    damping * (score * ratio / S * decay / S) / S
  }

  /** Outside the row a seed's edge is boosted against the unboosted row; everybody else's is not. */
  lemma FlowOutsideRow(cfg: Cfg, net: Network, hops: Hopcounts, current: map<nat, int>, a: nat, r: nat, total: int)
    requires !cfg.fixMultiplier && r in Edges(net, a) && r != a && Edges(net, a)[r] != 0
    requires total == Total(CarryingRow(a, Edges(net, a))) > 0
    ensures var w := Edges(net, a)[r];
      Contribution(cfg, net, hops, current, a, r) == Passed(cfg.damping, Decay(cfg, hops, a), Get(current, a),
        if a in cfg.seeds then w * cfg.trustMultiplier / S * S / total else w * S / total)
  {
    PlainRowTotal(cfg, net, a);
  }

  /** Inside the row the seed's whole row is boosted, its total with it. */
  lemma FlowInsideRow(cfg: Cfg, net: Network, hops: Hopcounts, current: map<nat, int>, a: nat, r: nat, total: int)
    requires cfg.fixMultiplier && r in Edges(net, a) && r != a && Edges(net, a)[r] != 0
    requires total > 0 && total == if a in cfg.seeds then Total(BoostedRow(a, Edges(net, a), cfg.trustMultiplier))
                                   else Total(CarryingRow(a, Edges(net, a)))
    ensures var w := Edges(net, a)[r];
      Contribution(cfg, net, hops, current, a, r) == Passed(cfg.damping, Decay(cfg, hops, a), Get(current, a),
        if a in cfg.seeds then w * cfg.trustMultiplier / S * S / total else w * S / total)
  {
    if a in cfg.seeds { BoostedRowTotal(cfg, net, a); } else { PlainRowTotal(cfg, net, a); }
  }

  lemma NoEdgeNoFlow(cfg: Cfg, net: Network, hops: Hopcounts, current: map<nat, int>, a: nat, r: nat)
    requires r !in Edges(net, a) || r == a || Edges(net, a)[r] == 0
    ensures Contribution(cfg, net, hops, current, a, r) == 0
  {
  }

  lemma StepAt(cfg: Cfg, net: Network, hops: Hopcounts, initial: map<nat, int>, current: map<nat, int>, v: nat)
    requires v in net.nodes
    ensures v in Step(cfg, net, hops, initial, current)
    ensures Step(cfg, net, hops, initial, current)[v] == NewScore(cfg, net, hops, initial, current, v)
  {
  }

  /** What each account passes on to `v`. */
  ghost predicate PassedTo(cfg: Cfg, net: Network, hops: Hopcounts, current: map<nat, int>, v: nat,
                           flows: map<nat, int>) {
    flows.Keys == net.nodes && forall a :: a in flows ==> flows[a] == Contribution(cfg, net, hops, current, a, v)
  }

  lemma NewScoreIs(cfg: Cfg, net: Network, hops: Hopcounts, initial: map<nat, int>, current: map<nat, int>, v: nat)
    returns (flows: map<nat, int>)
    ensures PassedTo(cfg, net, hops, current, v, flows)
    ensures NewScore(cfg, net, hops, initial, current, v) == FpMul(S - cfg.damping, Get(initial, v))
      + (if hops.Some? && v !in hops.value then 0 else Total(flows))
  {
    flows := Inflows(cfg, net, hops, current, v);
  }

  /** The undamped part of the initial score and, in reach, what all accounts pass on together. */
  lemma ScoreIs(cfg: Cfg, net: Network, hops: Hopcounts, initial: map<nat, int>, current: map<nat, int>, v: nat)
    returns (flows: map<nat, int>)
    requires v in net.nodes
    ensures PassedTo(cfg, net, hops, current, v, flows)
    ensures Get(Step(cfg, net, hops, initial, current), v) == FpMul(S - cfg.damping, Get(initial, v))
      + (if hops.Some? && v !in hops.value then 0 else Total(flows))
  {
    flows := NewScoreIs(cfg, net, hops, initial, current, v);
    StepAt(cfg, net, hops, initial, current, v);
  }

  /** Seeds pass on everything, each further hop multiplies once more, and who is out of reach passes nothing. */
  lemma DecayByHop(cfg: Cfg, dist: map<nat, nat>, a: nat, b: nat)
    ensures Decay(cfg, None, a) == S
    ensures a !in dist ==> Decay(cfg, Some(dist), a) == 0
    ensures a in dist && dist[a] == 0 ==> Decay(cfg, Some(dist), a) == S
    ensures a in dist && b in dist && dist[b] == dist[a] + 1 ==>
      Decay(cfg, Some(dist), b) == Decay(cfg, Some(dist), a) * cfg.trustDecay / S
  {
  }

  lemma {:induction false} FartherDecaysMore(base: int, near: nat, far: nat)
    requires 0 <= base <= S && near <= far
    ensures 0 <= DecayPow(base, far) <= DecayPow(base, near) <= S
  {
    if near < far {
      FartherDecaysMore(base, near, far - 1);
      FpMulShrinks(DecayPow(base, far - 1), base);
    } else if near > 0 {
      FartherDecaysMore(base, near - 1, near - 1);
      FpMulShrinks(DecayPow(base, near - 1), base);
    }
  }

  // ---- when the multiplier matters not at all --------------------------------------

  ghost predicate SeedsPassNothing(cfg: Cfg, net: Network) {
    forall a, t :: a in cfg.seeds && t in Edges(net, a) ==> t == a || Edges(net, a)[t] == 0
  }

  lemma SameContributions(cfg: Cfg, net: Network, hops: Hopcounts, current: map<nat, int>, r: nat, m: int)
    requires SeedsPassNothing(cfg, net)
    ensures Inflows(cfg, net, hops, current, r) == Inflows(WithMultiplier(cfg, m), net, hops, current, r)
  {
    forall a ensures Contribution(cfg, net, hops, current, a, r)
      == Contribution(WithMultiplier(cfg, m), net, hops, current, a, r)
    {
      if a !in cfg.seeds { NonSeedUnboosted(cfg, net, hops, current, a, r, m); }
    }
  }

  lemma SameScore(cfg: Cfg, net: Network, hops: Hopcounts, initial: map<nat, int>, current: map<nat, int>, r: nat,
                  m: int)
    requires SeedsPassNothing(cfg, net)
    ensures NewScore(cfg, net, hops, initial, current, r)
      == NewScore(WithMultiplier(cfg, m), net, hops, initial, current, r)
  {
    SameContributions(cfg, net, hops, current, r, m);
  }

  lemma SameStep(cfg: Cfg, net: Network, hops: Hopcounts, initial: map<nat, int>, current: map<nat, int>, m: int)
    requires SeedsPassNothing(cfg, net)
    ensures Step(cfg, net, hops, initial, current) == Step(WithMultiplier(cfg, m), net, hops, initial, current)
  {
    forall r ensures NewScore(cfg, net, hops, initial, current, r)
      == NewScore(WithMultiplier(cfg, m), net, hops, initial, current, r)
    {
      SameScore(cfg, net, hops, initial, current, r, m);
    }
  }

  lemma {:induction false} SameRun(cfg: Cfg, net: Network, hops: Hopcounts, initial: map<nat, int>,
                                   current: map<nat, int>, it: nat, m: int)
    requires SeedsPassNothing(cfg, net)
    ensures Run(cfg, net, hops, initial, current, it) == Run(WithMultiplier(cfg, m), net, hops, initial, current, it)
    decreases cfg.maxIterations - it
  {
    if it < cfg.maxIterations {
      SameStep(cfg, net, hops, initial, current, m);
      SameRun(cfg, net, hops, initial, Step(cfg, net, hops, initial, current), it + 1, m);
    }
  }

  /** If no seed has an edge that carries, the multiplier changes nothing at all. */
  lemma MultiplierNeedsSeedEdge(cfg: Cfg, net: Network, m: int)
    requires SeedsPassNothing(cfg, net)
    ensures Calculated(cfg, net) == Calculated(WithMultiplier(cfg, m), net)
  {
    var hops := HopsFrom(net, cfg.seeds);
    var initial := Initial(cfg, net, if hops.None? then map[] else hops.value);
    assert initial == Initial(WithMultiplier(cfg, m), net, if hops.None? then map[] else hops.value);
    SameRun(cfg, net, hops, initial, initial, 0, m);
  }

  // ---- the initial scores --------------------------------------------------------

  /** Somebody else vouches for `v`. */
  ghost predicate VouchedFor(net: Network, v: nat) {
    exists a :: a in net.outgoing && a != v && v in net.outgoing[a] && net.outgoing[a][v] > 0
  }

  /** A seed that holds the prior. */
  ghost predicate Holds(cfg: Cfg, net: Network, v: nat) {
    && v in cfg.seeds
    && (cfg.f5d ==> VouchedFor(net, v))
    && (cfg.fixSeedDivisor ==> v in net.nodes)
  }

  ghost function HoldersOf(cfg: Cfg, net: Network): set<nat> { set v | v in cfg.seeds && Holds(cfg, net, v) }

  /** Everybody else who is endowed. */
  ghost function SharersOf(cfg: Cfg, net: Network, dist: map<nat, nat>): set<nat> {
    set v | v in net.nodes && !Holds(cfg, net, v) && (cfg.f15 ==> v in dist)
  }

  lemma HoldersAre(cfg: Cfg, net: Network)
    ensures EffectiveSeeds(cfg, net)
      == if HoldersOf(cfg, net) == {} then None else Some(HoldersOf(cfg, net))
  {
    var vouched := if cfg.f5d then cfg.seeds * Vouched(net) else cfg.seeds;
    var present := if cfg.fixSeedDivisor then vouched * net.nodes else vouched;
    forall v ensures v in Vouched(net) <==> VouchedFor(net, v) {}
    assert present == HoldersOf(cfg, net);
  }

  /** In every configuration: without a holder all start alike; otherwise the holders share the trust share
      equally, the other endowed accounts the rest, and nobody else starts with anything. */
  lemma InitialEverywhere(cfg: Cfg, net: Network, dist: map<nat, nat>, v: nat)
    requires v in net.nodes
    ensures var holders, sharers := HoldersOf(cfg, net), SharersOf(cfg, net, dist);
      Initial(cfg, net, dist)[v] ==
        if holders == {} then S / |net.nodes|
        else if v in holders then cfg.trustShare / |holders|
        else if v in sharers then (S - cfg.trustShare) / |sharers|
        else 0
  {
    HoldersAre(cfg, net);
    var holders := HoldersOf(cfg, net);
    if holders != {} {
      assert !cfg.f5d && !cfg.fixSeedDivisor ==> holders == cfg.seeds;
      assert Regulars(cfg, net, holders, dist) == SharersOf(cfg, net, dist);
      assert holders != {} && (v in SharersOf(cfg, net, dist) ==> SharersOf(cfg, net, dist) != {});
    }
  }

  // ---- when the run stops ---------------------------------------------------------

  /** Every entry is the step after the one before it. */
  ghost predicate Trail<T(!new)>(step: T -> T, trail: seq<T>) {
    trail != [] && forall k :: 0 < k < |trail| ==> trail[k] == step(trail[k - 1])
  }

  /** Only the last step may have been quiet, and it was exactly when the run settled. */
  ghost predicate Halts<T(!new)>(quiet: (T, T) -> bool, trail: seq<T>, settled: bool) {
    && (settled ==> |trail| > 1)
    && forall k :: 0 < k < |trail| ==> (quiet(trail[k - 1], trail[k]) <==> settled && k == |trail| - 1)
  }

  lemma TrailCons<T(!new)>(step: T -> T, quiet: (T, T) -> bool, x: T, trail: seq<T>, settled: bool)
    requires Trail(step, trail) && trail[0] == step(x)
    requires Halts(quiet, trail, settled) && !quiet(x, trail[0])
    ensures Trail(step, [x] + trail) && Halts(quiet, [x] + trail, settled)
  {
  }

  ghost function Stepping(cfg: Cfg, net: Network, hops: Hopcounts, initial: map<nat, int>)
    : map<nat, int> -> map<nat, int>
  {
    current => Step(cfg, net, hops, initial, current)
  }

  /** No account in reach moved by as much as the tolerance. */
  ghost predicate IsQuiet(cfg: Cfg, net: Network, hops: Hopcounts, before: map<nat, int>, after: map<nat, int>) {
    cfg.tolerance > 0 && forall v :: v in net.nodes && (hops.Some? ==> v in hops.value) ==>
      0 - cfg.tolerance < Get(after, v) - Get(before, v) < cfg.tolerance
  }

  ghost function Quiet(cfg: Cfg, net: Network, hops: Hopcounts): (map<nat, int>, map<nat, int>) -> bool
  {
    (before, after) => IsQuiet(cfg, net, hops, before, after)
  }

  lemma QuietIsSettled(cfg: Cfg, net: Network, hops: Hopcounts, before: map<nat, int>, after: map<nat, int>)
    ensures Quiet(cfg, net, hops)(before, after) <==> Settled(cfg, net, hops, before, after)
  {
  }

  /** What one unfolding of a run gives. */
  lemma RunUnfolds(cfg: Cfg, net: Network, hops: Hopcounts, initial: map<nat, int>, current: map<nat, int>, it: nat)
    returns (next: map<nat, int>, quiet: bool)
    requires it < cfg.maxIterations
    ensures next == Stepping(cfg, net, hops, initial)(current) && quiet == Quiet(cfg, net, hops)(current, next)
    ensures Run(cfg, net, hops, initial, current, it)
      == if quiet then Rank(next, it + 1, Some(true)) else Run(cfg, net, hops, initial, next, it + 1)
  {
    next := Step(cfg, net, hops, initial, current);
    QuietIsSettled(cfg, net, hops, current, next);
    quiet := Settled(cfg, net, hops, current, next);
  }

  /** A run reports how many steps it took and returns the scores after them. The first quiet step ends it;
      without one it takes every step it may. */
  lemma {:induction false} RunSteps(cfg: Cfg, net: Network, hops: Hopcounts, initial: map<nat, int>,
                                    current: map<nat, int>, it: nat)
    returns (trail: seq<map<nat, int>>)
    requires it <= cfg.maxIterations
    ensures var r := Run(cfg, net, hops, initial, current, it);
      && r.converged.Some? && r.iterations == it + |trail| - 1 <= cfg.maxIterations
      && (r.converged == Some(false) ==> r.iterations == cfg.maxIterations)
      && Trail(Stepping(cfg, net, hops, initial), trail)
      && trail[0] == current && r.scores == trail[|trail| - 1]
      && Halts(Quiet(cfg, net, hops), trail, r.converged == Some(true))
    decreases cfg.maxIterations - it
  {
    if it == cfg.maxIterations {
      trail := [current];
    } else {
      var next, quiet := RunUnfolds(cfg, net, hops, initial, current, it);
      if quiet {
        trail := [current, next];
      } else {
        trail := RunSteps(cfg, net, hops, initial, next, it + 1);
        TrailCons(Stepping(cfg, net, hops, initial), Quiet(cfg, net, hops), current, trail,
          Run(cfg, net, hops, initial, next, it + 1).converged == Some(true));
        trail := [current] + trail;
      }
    }
  }
}
