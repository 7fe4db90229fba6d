/** Isolation of disconnected accounts (README.md:14-16): a two-run theorem about research/scoring-sim/tg.py. */
module SybilIsolation {
  import opened Wrappers
  import opened Totals
  import opened FixedPoint
  import opened Graph
  import opened PageRank
  import Bfs

  /** Only seed-reachable accounts are endowed, whoever vouches for the seeds. */
  ghost predicate Gated(cfg: Cfg) { cfg.seeds != {} && cfg.f15 && !cfg.f5d }

  /** Some seed holds the prior: when only present seeds count, one is present. */
  ghost predicate Isolating(cfg: Cfg, net: Network) {
    Gated(cfg) && (cfg.fixSeedDivisor ==> cfg.seeds * net.nodes != {})
  }

  ghost predicate Connected(cfg: Cfg, net: Network, v: nat) { Reaches(Links(net), cfg.seeds, v) }

  /** `ext` adds accounts out of reach, and may change every edge whose source is out of reach. */
  ghost predicate AddsIslands(cfg: Cfg, net: Network, ext: Network) {
    && net.nodes <= ext.nodes
    && (forall v :: v in ext.nodes && v !in net.nodes ==> !Connected(cfg, net, v))
    && (forall u :: Connected(cfg, net, u) ==> Edges(net, u) == Edges(ext, u))
  }

  lemma SameDistances(cfg: Cfg, net: Network, ext: Network)
    requires AddsIslands(cfg, net, ext)
    ensures HopsFrom(net, cfg.seeds) == HopsFrom(ext, cfg.seeds)
  {
    var g, h := Links(net), Links(ext);
    forall u | Reaches(g, cfg.seeds, u) ensures Next(g, u) == Next(h, u) {
      assert Connected(cfg, net, u);
      assert Next(g, u) == Edges(net, u).Keys && Next(h, u) == Edges(ext, u).Keys;
    }
    SameReach(g, h, cfg.seeds);
    ClosureIsReachable(g, cfg.seeds);
    forall v | v in Closure(g, cfg.seeds) ensures Hops(g, cfg.seeds, v) == Hops(h, cfg.seeds, v) {
      SameHops(g, h, cfg.seeds, v);
    }
    assert Bfs.Distances(g, cfg.seeds) == Bfs.Distances(h, cfg.seeds);
  }

  /** Scores agree everywhere, and are zero out of reach. */
  ghost predicate Mirrors(dist: map<nat, nat>, a: map<nat, int>, b: map<nat, int>) {
    forall v :: Get(a, v) == Get(b, v) && (v !in dist ==> Get(a, v) == 0)
  }

  lemma DistIsConnected(cfg: Cfg, net: Network)
    ensures forall v :: v in Bfs.Distances(Links(net), cfg.seeds) <==> Connected(cfg, net, v)
    ensures cfg.seeds <= Bfs.Distances(Links(net), cfg.seeds).Keys
  {
    ClosureIsReachable(Links(net), cfg.seeds);
  }

  function Holders(cfg: Cfg, net: Network): set<nat> { if cfg.fixSeedDivisor then cfg.seeds * net.nodes else cfg.seeds }

  /** What one account starts with. */
  lemma InitialAt(cfg: Cfg, net: Network, dist: map<nat, nat>, v: nat)
    requires Isolating(cfg, net)
    ensures Get(Initial(cfg, net, dist), v) ==
      if v !in net.nodes then 0
      else if v in Holders(cfg, net) then Divided(cfg.trustShare, |Holders(cfg, net)|)
      else if v in dist then Divided(S - cfg.trustShare, |Regulars(cfg, net, Holders(cfg, net), dist)|)
      else 0
  {
    assert EffectiveSeeds(cfg, net) == Some(Holders(cfg, net));
  }

  /** Accounts out of reach are no seeds, so they change neither who holds the prior nor who shares the rest. */
  lemma SameHolders(cfg: Cfg, net: Network, ext: Network)
    requires AddsIslands(cfg, net, ext)
    ensures Holders(cfg, net) == Holders(cfg, ext)
    ensures Isolating(cfg, net) ==> Isolating(cfg, ext)
  {
    DistIsConnected(cfg, net);
    assert cfg.seeds * net.nodes == cfg.seeds * ext.nodes;
  }

  lemma SameRegulars(cfg: Cfg, net: Network, ext: Network, holders: set<nat>, dist: map<nat, nat>)
    requires Gated(cfg) && AddsIslands(cfg, net, ext) && dist == Bfs.Distances(Links(net), cfg.seeds)
    ensures Regulars(cfg, net, holders, dist) == Regulars(cfg, ext, holders, dist)
  {
    DistIsConnected(cfg, net);
  }

  lemma InitialMirrors(cfg: Cfg, net: Network, ext: Network, dist: map<nat, nat>)
    requires Isolating(cfg, net) && AddsIslands(cfg, net, ext) && dist == Bfs.Distances(Links(net), cfg.seeds)
    ensures Mirrors(dist, Initial(cfg, net, dist), Initial(cfg, ext, dist))
  {
    DistIsConnected(cfg, net);
    SameHolders(cfg, net, ext);
    SameRegulars(cfg, net, ext, Holders(cfg, net), dist);
    var x, y := Initial(cfg, net, dist), Initial(cfg, ext, dist);
    forall v ensures Get(x, v) == Get(y, v) && (v !in dist ==> Get(x, v) == 0) {
      InitialAt(cfg, net, dist, v);
      InitialAt(cfg, ext, dist, v);
      assert v in ext.nodes && v !in net.nodes ==> v !in dist;
    }
  }

  /** An attester out of reach adds nothing. */
  lemma IslandAddsNothing(cfg: Cfg, net: Network, dist: map<nat, nat>, current: map<nat, int>, a: nat, r: nat)
    requires a !in dist && Get(current, a) == 0
    ensures Contribution(cfg, net, Some(dist), current, a, r) == 0
  {
    var row := Row(cfg, net, a);
    if Found(net, a, r) && Total(row) != 0 {
      var ratio := FpDiv(Boosted(cfg, a, row[r]), Total(row));
      FpMulZero(0, ratio);
      FpMulZero(0, 0);
      FpMulZero(cfg.damping, 0);
    }
  }

  lemma SameContribution(cfg: Cfg, net: Network, ext: Network, dist: map<nat, nat>, a: map<nat, int>, b: map<nat, int>,
                         u: nat, r: nat)
    requires AddsIslands(cfg, net, ext) && dist == Bfs.Distances(Links(net), cfg.seeds) && Mirrors(dist, a, b)
    ensures Contribution(cfg, net, Some(dist), a, u, r) == Contribution(cfg, ext, Some(dist), b, u, r)
    ensures u !in dist ==> Contribution(cfg, ext, Some(dist), b, u, r) == 0
  {
    assert Get(a, u) == Get(b, u);
    if u in dist {
      DistIsConnected(cfg, net);
      assert Edges(net, u) == Edges(ext, u);
      assert Row(cfg, net, u) == Row(cfg, ext, u);
    } else {
      IslandAddsNothing(cfg, net, dist, a, u, r);
      IslandAddsNothing(cfg, ext, dist, b, u, r);
    }
  }

  lemma SameInflow(cfg: Cfg, net: Network, ext: Network, dist: map<nat, nat>, a: map<nat, int>, b: map<nat, int>,
                   r: nat)
    requires AddsIslands(cfg, net, ext) && dist == Bfs.Distances(Links(net), cfg.seeds) && Mirrors(dist, a, b)
    ensures Total(Inflows(cfg, net, Some(dist), a, r)) == Total(Inflows(cfg, ext, Some(dist), b, r))
  {
    DistIsConnected(cfg, net);
    var m, wider := Inflows(cfg, net, Some(dist), a, r), Inflows(cfg, ext, Some(dist), b, r);
    forall u | u in wider ensures wider[u] == Get(m, u) {
      SameContribution(cfg, net, ext, dist, a, b, u, r);
    }
    TotalPadded(m, wider);
  }

  lemma ScoreMirrors(cfg: Cfg, net: Network, ext: Network, dist: map<nat, nat>, i: map<nat, int>, j: map<nat, int>,
                     a: map<nat, int>, b: map<nat, int>, v: nat)
    requires AddsIslands(cfg, net, ext) && dist == Bfs.Distances(Links(net), cfg.seeds)
    requires Get(i, v) == Get(j, v) && (v !in dist ==> Get(i, v) == 0) && Mirrors(dist, a, b)
    ensures NewScore(cfg, net, Some(dist), i, a, v) == NewScore(cfg, ext, Some(dist), j, b, v)
    ensures v !in dist ==> NewScore(cfg, net, Some(dist), i, a, v) == 0
  {
    if v !in dist { FpMulZero(S - cfg.damping, 0); } else { SameInflow(cfg, net, ext, dist, a, b, v); }
  }

  lemma StepAt(cfg: Cfg, net: Network, hops: Hopcounts, i: map<nat, int>, a: map<nat, int>, v: nat)
    ensures Get(Step(cfg, net, hops, i, a), v) == if v in net.nodes then NewScore(cfg, net, hops, i, a, v) else 0
  {
  }

  /** One step keeps the two runs in agreement. */
  lemma StepMirrors(cfg: Cfg, net: Network, ext: Network, dist: map<nat, nat>, i: map<nat, int>, j: map<nat, int>,
                    a: map<nat, int>, b: map<nat, int>)
    requires AddsIslands(cfg, net, ext) && dist == Bfs.Distances(Links(net), cfg.seeds)
    requires Mirrors(dist, i, j) && Mirrors(dist, a, b)
    ensures Mirrors(dist, Step(cfg, net, Some(dist), i, a), Step(cfg, ext, Some(dist), j, b))
  {
    var x, y := Step(cfg, net, Some(dist), i, a), Step(cfg, ext, Some(dist), j, b);
    DistIsConnected(cfg, net);
    forall v ensures Get(x, v) == Get(y, v) && (v !in dist ==> Get(x, v) == 0) {
      assert Get(i, v) == Get(j, v);
      StepAt(cfg, net, Some(dist), i, a, v);
      StepAt(cfg, ext, Some(dist), j, b, v);
      ScoreMirrors(cfg, net, ext, dist, i, j, a, b, v);
    }
  }

  lemma SameSettled(cfg: Cfg, net: Network, ext: Network, dist: map<nat, nat>, a: map<nat, int>, b: map<nat, int>,
                    a': map<nat, int>, b': map<nat, int>)
    requires AddsIslands(cfg, net, ext) && dist == Bfs.Distances(Links(net), cfg.seeds)
    requires Mirrors(dist, a, b) && Mirrors(dist, a', b')
    ensures Settled(cfg, net, Some(dist), a, a') == Settled(cfg, ext, Some(dist), b, b')
  {
    DistIsConnected(cfg, net);
    forall v ensures Get(a, v) == Get(b, v) && Get(a', v) == Get(b', v) {}
  }

  lemma {:induction false} RunMirrors(cfg: Cfg, net: Network, ext: Network, dist: map<nat, nat>,
      i: map<nat, int>, j: map<nat, int>, a: map<nat, int>, b: map<nat, int>, it: nat)
    requires AddsIslands(cfg, net, ext) && dist == Bfs.Distances(Links(net), cfg.seeds)
    requires Mirrors(dist, i, j) && Mirrors(dist, a, b)
    ensures var x, y := Run(cfg, net, Some(dist), i, a, it), Run(cfg, ext, Some(dist), j, b, it);
      Mirrors(dist, x.scores, y.scores) && x.iterations == y.iterations && x.converged == y.converged
    decreases cfg.maxIterations - it
  {
    if it < cfg.maxIterations {
      var a', b' := Step(cfg, net, Some(dist), i, a), Step(cfg, ext, Some(dist), j, b);
      StepMirrors(cfg, net, ext, dist, i, j, a, b);
      SameSettled(cfg, net, ext, dist, a, b, a', b');
      RunMirrors(cfg, net, ext, dist, i, j, a', b', it + 1);
    }
  }

  lemma NormalizedMirrors(dist: map<nat, nat>, a: map<nat, int>, b: map<nat, int>)
    requires Mirrors(dist, a, b) && a.Keys <= b.Keys
    ensures Mirrors(dist, Normalized(a), Normalized(b))
  {
    forall k | k in b ensures b[k] == Get(a, k) { assert Get(a, k) == Get(b, k); }
    TotalPadded(a, b);
    forall v ensures Get(Normalized(a), v) == Get(Normalized(b), v) && (v !in dist ==> Get(Normalized(a), v) == 0) {
      assert Get(a, v) == Get(b, v);
    }
  }

  /** Adding islands leaves every score exactly as it was, the islands score zero, and with at least
      one account the iteration count and the convergence flag do not change either. */
  lemma IslandsChangeNothing(cfg: Cfg, net: Network, ext: Network)
    requires Isolating(cfg, net) && AddsIslands(cfg, net, ext)
    ensures forall v :: Get(Calculated(cfg, net).scores, v) == Get(Calculated(cfg, ext).scores, v)
    ensures forall v :: !Connected(cfg, net, v) ==> Get(Calculated(cfg, ext).scores, v) == 0
    ensures net.nodes != {} ==>
      Calculated(cfg, net).iterations == Calculated(cfg, ext).iterations
        && Calculated(cfg, net).converged == Calculated(cfg, ext).converged
  {
    var dist := Bfs.Distances(Links(net), cfg.seeds);
    SameDistances(cfg, net, ext);
    DistIsConnected(cfg, net);
    InitialMirrors(cfg, net, ext, dist);
    var i, j := Initial(cfg, net, dist), Initial(cfg, ext, dist);
    RunMirrors(cfg, net, ext, dist, i, j, i, j, 0);
    RunKeys(cfg, net, Some(dist), i, i, 0);
    RunKeys(cfg, ext, Some(dist), j, j, 0);
    NormalizedMirrors(dist, RawRank(cfg, net).scores, RawRank(cfg, ext).scores);
    if net.nodes == {} { EmptyScores(RawRank(cfg, net).scores); }
    assert Mirrors(dist, Calculated(cfg, net).scores, Calculated(cfg, ext).scores);
  }

  lemma EmptyScores(scores: map<nat, int>)
    requires scores.Keys == {}
    ensures Normalized(scores) == map[]
  {
    assert scores == map[];
  }

  // ---- at every iteration ------------------------------------------------

  lemma {:induction false} AfterMirrors(cfg: Cfg, net: Network, ext: Network, dist: map<nat, nat>,
      i: map<nat, int>, j: map<nat, int>, a: map<nat, int>, b: map<nat, int>, k: nat)
    requires AddsIslands(cfg, net, ext) && dist == Bfs.Distances(Links(net), cfg.seeds)
    requires Mirrors(dist, i, j) && Mirrors(dist, a, b)
    ensures Mirrors(dist, After(cfg, net, Some(dist), i, a, k), After(cfg, ext, Some(dist), j, b, k))
    decreases k
  {
    if k > 0 {
      StepMirrors(cfg, net, ext, dist, i, j, a, b);
      AfterMirrors(cfg, net, ext, dist, i, j, Step(cfg, net, Some(dist), i, a), Step(cfg, ext, Some(dist), j, b),
        k - 1);
    }
  }

  /** Not only at the end: after every step an account out of reach holds zero, and the others what they
      held without it. */
  lemma IslandsStayAtZero(cfg: Cfg, net: Network, ext: Network, k: nat)
    requires Isolating(cfg, net) && AddsIslands(cfg, net, ext)
    ensures var dist := Bfs.Distances(Links(net), cfg.seeds);
      var i, j := Initial(cfg, net, dist), Initial(cfg, ext, dist);
      HopsFrom(net, cfg.seeds) == HopsFrom(ext, cfg.seeds) == Some(dist) &&
      Mirrors(dist, After(cfg, net, Some(dist), i, i, k), After(cfg, ext, Some(dist), j, j, k))
  {
    var dist := Bfs.Distances(Links(net), cfg.seeds);
    SameDistances(cfg, net, ext);
    InitialMirrors(cfg, net, ext, dist);
    var i, j := Initial(cfg, net, dist), Initial(cfg, ext, dist);
    AfterMirrors(cfg, net, ext, dist, i, j, i, j, k);
  }

  // ---- the empty network -------------------------------------------------

  lemma StillSettled(cfg: Cfg, net: Network, hops: Hopcounts, a: map<nat, int>, b: map<nat, int>)
    requires forall v :: Get(a, v) == Get(b, v) == 0
    ensures Settled(cfg, net, hops, a, b) <==> 0 < cfg.tolerance
  {
    forall v ensures Get(a, v) == 0 && Get(b, v) == 0 {}
  }

  lemma {:induction false} IslandsRun(cfg: Cfg, net: Network, ext: Network, dist: map<nat, nat>, j: map<nat, int>,
                                      b: map<nat, int>, it: nat)
    requires net.nodes == {} && AddsIslands(cfg, net, ext) && dist == Bfs.Distances(Links(net), cfg.seeds)
    requires Mirrors(dist, map[], j) && Mirrors(dist, map[], b)
    ensures var r := Run(cfg, ext, Some(dist), j, b, it);
      if it < cfg.maxIterations && 0 < cfg.tolerance then r.iterations == it + 1
      else r.iterations == cfg.maxIterations
    decreases cfg.maxIterations - it
  {
    if it < cfg.maxIterations {
      var next := Step(cfg, ext, Some(dist), j, b);
      StepMirrors(cfg, net, ext, dist, map[], j, map[], b);
      assert Step(cfg, net, Some(dist), map[], map[]) == map[];
      forall v ensures Get(b, v) == 0 && Get(next, v) == 0 {
        assert Get(map[], v) == Get(b, v) && Get(map[], v) == Get(next, v);
      }
      StillSettled(cfg, ext, Some(dist), b, next);
      if 0 >= cfg.tolerance { IslandsRun(cfg, net, ext, dist, j, next, it + 1); }
    }
  }

  /** An empty network reports zero iterations without running, so islands alone change the count:
      it is unchanged exactly when the network was not empty, still is, or no iteration is allowed. */
  lemma IterationsUnchanged(cfg: Cfg, net: Network, ext: Network)
    requires Isolating(cfg, net) && AddsIslands(cfg, net, ext)
    ensures Calculated(cfg, net).iterations == Calculated(cfg, ext).iterations
      <==> net.nodes != {} || ext.nodes == {} || cfg.maxIterations == 0
  {
    IslandsChangeNothing(cfg, net, ext);
    if net.nodes == {} && ext.nodes != {} {
      var dist := Bfs.Distances(Links(net), cfg.seeds);
      SameDistances(cfg, net, ext);
      InitialMirrors(cfg, net, ext, dist);
      assert Initial(cfg, net, dist) == map[];
      IslandsRun(cfg, net, ext, dist, Initial(cfg, ext, dist), Initial(cfg, ext, dist), 0);
    }
  }

  // ---- when no seed is present --------------------------------------------

  /** Whatever islands are added, everybody starts as before and the islands start at zero. */
  ghost predicate StartsIsolated(cfg: Cfg, net: Network) {
    var dist := Bfs.Distances(Links(net), cfg.seeds);
    forall ext :: AddsIslands(cfg, net, ext) ==> Mirrors(dist, Initial(cfg, net, dist), Initial(cfg, ext, dist))
  }

  lemma {:induction false} FreshAccount(s: set<nat>) returns (x: nat)
    ensures forall y :: y in s ==> y < x
  {
    if s == {} {
      x := 0;
    } else {
      var y :| y in s;
      x := FreshAccount(s - {y});
      if x <= y { x := y + 1; }
      assert forall z :: z in s ==> z == y || z in s - {y};
    }
  }

  /** The network with one more account that nobody mentions. */
  function WithAccount(net: Network, x: nat): Network { net.(nodes := net.nodes + {x}) }

  lemma PresentSeedIsolates(cfg: Cfg, net: Network)
    requires Isolating(cfg, net)
    ensures StartsIsolated(cfg, net)
  {
    var dist := Bfs.Distances(Links(net), cfg.seeds);
    forall ext | AddsIslands(cfg, net, ext) ensures Mirrors(dist, Initial(cfg, net, dist), Initial(cfg, ext, dist)) {
      InitialMirrors(cfg, net, ext, dist);
    }
  }

  lemma FreshIsIsland(cfg: Cfg, net: Network, x: nat)
    requires x !in net.nodes && !Connected(cfg, net, x)
    ensures AddsIslands(cfg, net, WithAccount(net, x))
  {
  }

  lemma MirroredAt(dist: map<nat, nat>, a: map<nat, int>, b: map<nat, int>, v: nat)
    requires Mirrors(dist, a, b)
    ensures Get(a, v) == Get(b, v)
  {
  }

  lemma InitialKeys(cfg: Cfg, net: Network, dist: map<nat, nat>)
    ensures Initial(cfg, net, dist).Keys == net.nodes
  {
  }

  lemma AbsentSeedLeaks(cfg: Cfg, net: Network)
    requires Gated(cfg) && cfg.fixSeedDivisor && |net.nodes| < S && cfg.seeds * net.nodes == {}
    ensures !StartsIsolated(cfg, net)
  {
    var dist := Bfs.Distances(Links(net), cfg.seeds);
    DistIsConnected(cfg, net);
    var x := FreshAccount(net.nodes + dist.Keys);
    var ext := WithAccount(net, x);
    FreshIsIsland(cfg, net, x);
    assert x !in cfg.seeds && |ext.nodes| == |net.nodes| + 1;
    FallbackLeaks(cfg, ext, dist, x);
    InitialKeys(cfg, net, dist);
    if StartsIsolated(cfg, net) {
      MirroredAt(dist, Initial(cfg, net, dist), Initial(cfg, ext, dist), x);
      assert false;
    }
  }

  /** Dividing the prior among present seeds isolates exactly when some seed is present; otherwise
      the scores fall back to uniform, and an island starts with its equal part. */
  lemma SeedDivisorIsolates(cfg: Cfg, net: Network)
    requires Gated(cfg) && cfg.fixSeedDivisor && |net.nodes| < S
    ensures StartsIsolated(cfg, net) <==> cfg.seeds * net.nodes != {}
  {
    if cfg.seeds * net.nodes != {} { PresentSeedIsolates(cfg, net); } else { AbsentSeedLeaks(cfg, net); }
  }

  lemma FallbackLeaks(cfg: Cfg, ext: Network, dist: map<nat, nat>, x: nat)
    requires Gated(cfg) && cfg.fixSeedDivisor && cfg.seeds * ext.nodes == {} && x in ext.nodes && |ext.nodes| <= S
    ensures Initial(cfg, ext, dist)[x] == S / |ext.nodes| > 0
  {
    assert EffectiveSeeds(cfg, ext) == None;
    assert Initial(cfg, ext, dist) == Uniform(ext);
    assert ext.nodes != {};
    AtLeastOneEach(|ext.nodes|);
  }

  lemma AtLeastOneEach(n: nat)
    requires 0 < n <= S
    ensures S / n > 0
  {
    DivisionMonotone(n, S, n);
    assert n / n == 1;
  }
}
