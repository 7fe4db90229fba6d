/** Isolation of disconnected accounts in the production kernel, dust included
    (README.md:14-16, docs/concepts/algorithm.md:35-38). */
module PushIsolation {
  import opened Wrappers
  import opened Totals
  import opened Ordering
  import opened FixedPoint
  import opened Graph
  import opened PageRank
  import opened DecaySearch
  import opened PushRank
  import opened PushKernel
  import opened PushResult
  import opened SybilIsolation
  import Bfs

  /** Some walk along carrying edges leads from a seed to the account. */
  ghost predicate SeedReached(net: Network, c: Config, v: nat) { Reaches(CarryingLinks(net.outgoing), c.seeds, v) }

  /** `ext` adds accounts that no seed reaches, and may change every row of an unreached account. */
  ghost predicate IslandsAdded(net: Network, ext: Network, c: Config) {
    && net.nodes + c.seeds <= ext.nodes + c.seeds
    && (forall v :: v in ext.nodes && v !in net.nodes + c.seeds ==> !SeedReached(net, c, v))
    && forall u :: SeedReached(net, c, u) ==> RowOf(net, u) == RowOf(ext, u)
  }

  function RowOf(net: Network, u: nat): map<nat, int> { if u in net.outgoing then net.outgoing[u] else map[] }

  lemma ReachedIsConnected(net: Network, c: Config, v: nat)
    ensures SeedReached(net, c, v) <==> Connected(AsPull(c), Ranked(net, c), v)
  {
    LinksOfRanked(net, c);
  }

  lemma AddedAreIslands(net: Network, ext: Network, c: Config)
    requires IslandsAdded(net, ext, c)
    ensures AddsIslands(AsPull(c), Ranked(net, c), Ranked(ext, c))
  {
    var pull, a, b := AsPull(c), Ranked(net, c), Ranked(ext, c);
    forall v | v in b.nodes && v !in a.nodes ensures !Connected(pull, a, v) { ReachedIsConnected(net, c, v); }
    forall u | Connected(pull, a, u) ensures Edges(a, u) == Edges(b, u) {
      ReachedIsConnected(net, c, u);
      assert RowOf(net, u) == RowOf(ext, u);
    }
  }

  ghost function DistOf(net: Network, c: Config): map<nat, nat> { Bfs.Distances(Links(Ranked(net, c)), c.seeds) }

  lemma DistIsReach(net: Network, c: Config)
    requires c.seeds != {}
    ensures HopsOf(net, c) == Some(DistOf(net, c)) && ReachOf(HopsOf(net, c)) == Some(DistOf(net, c).Keys)
    ensures c.seeds <= DistOf(net, c).Keys
    ensures forall v :: v in DistOf(net, c) <==> SeedReached(net, c, v)
  {
    LinksOfRanked(net, c);
    DistIsConnected(AsPull(c), Ranked(net, c));
    forall v ensures v in DistOf(net, c) <==> SeedReached(net, c, v) { ReachedIsConnected(net, c, v); }
  }

  /** The pull forms agree, and hold zero out of reach. */
  lemma PulledMirror(net: Network, ext: Network, c: Config)
    requires c.seeds != {} && IslandsAdded(net, ext, c)
    ensures Mirrors(DistOf(net, c), Pulled(net, c), Pulled(ext, c))
    ensures Kernel(net, c).iterations == Kernel(ext, c).iterations
      && Kernel(net, c).converged == Kernel(ext, c).converged
  {
    var pull, a, b := AsPull(c), Ranked(net, c), Ranked(ext, c);
    AddedAreIslands(net, ext, c);
    IslandsChangeNothing(pull, a, b);
    DistIsConnected(pull, a);
    forall v
      ensures Get(Pulled(net, c), v) == Get(Pulled(ext, c), v)
      ensures v !in DistOf(net, c) ==> Get(Pulled(net, c), v) == 0
    {
      assert v !in DistOf(net, c) ==> !Connected(pull, a, v);
    }
    KernelIsPull(net, c);
    KernelIsPull(ext, c);
  }

  // ---- the dust ------------------------------------------------------------------

  lemma SameChoices(dist: map<nat, nat>, a: map<nat, int>, b: map<nat, int>)
    requires Mirrors(dist, a, b) && dist.Keys <= a.Keys <= b.Keys
    ensures NonZero(a) == NonZero(b) <= dist.Keys
    ensures Reached(a, Some(dist.Keys)) == Reached(b, Some(dist.Keys)) == dist.Keys
  {
    forall v ensures v in NonZero(a) <==> v in NonZero(b) {
      assert Get(a, v) == Get(b, v);
    }
    forall v | v in NonZero(a) ensures v in dist { assert v !in dist ==> Get(a, v) == 0; }
  }

  /** The dust goes to one and the same account, and that account is reached. */
  lemma SameRecipient(dist: map<nat, nat>, a: map<nat, int>, b: map<nat, int>)
    requires Mirrors(dist, a, b) && dist.Keys <= a.Keys <= b.Keys && dist != map[]
    ensures a != map[] && b != map[] && DustRecipient(a, Some(dist.Keys)) == DustRecipient(b, Some(dist.Keys))
    ensures DustRecipient(a, Some(dist.Keys)) in dist
  {
    SameChoices(dist, a, b);
    assert dist.Keys != {};
    var v :| v in dist.Keys;
    assert v in a && v in b;
  }

  lemma SameTotal(dist: map<nat, nat>, a: map<nat, int>, b: map<nat, int>)
    requires Mirrors(dist, a, b) && a.Keys <= b.Keys
    ensures Total(a) == Total(b)
  {
    forall k | k in b ensures b[k] == Get(a, k) { assert Get(a, k) == Get(b, k); }
    TotalPadded(a, b);
  }

  lemma DustMirrors(dist: map<nat, nat>, a: map<nat, int>, b: map<nat, int>)
    requires Mirrors(dist, a, b) && dist.Keys <= a.Keys <= b.Keys && dist != map[]
    ensures a != map[] && b != map[]
    ensures Mirrors(dist, Dusted(a, Some(dist.Keys)), Dusted(b, Some(dist.Keys)))
  {
    SameRecipient(dist, a, b);
    SameTotal(dist, a, b);
    var r := DustRecipient(a, Some(dist.Keys));
    assert Get(a, r) == Get(b, r);
    forall v
      ensures Get(Dusted(a, Some(dist.Keys)), v) == Get(Dusted(b, Some(dist.Keys)), v)
        && (v !in dist ==> Get(Dusted(a, Some(dist.Keys)), v) == 0)
    {
      assert Get(a, v) == Get(b, v);
    }
  }

  lemma PulledKeys(net: Network, c: Config)
    requires c.seeds != {}
    ensures Pulled(net, c).Keys == net.nodes + c.seeds
  {
    RawKernelKeys(net, c);
  }

  lemma KernelMirrors(net: Network, ext: Network, c: Config)
    requires c.seeds != {} && IslandsAdded(net, ext, c) && EdgesClosed(Whole(net, c))
    ensures Mirrors(DistOf(net, c), Kernel(net, c).scores, Kernel(ext, c).scores)
  {
    var dist := DistOf(net, c);
    PulledMirror(net, ext, c);
    PulledKeys(net, c);
    PulledKeys(ext, c);
    KernelIsPull(net, c);
    KernelIsPull(ext, c);
    SameReachOf(net, ext, c);
    DistWithin(net, c);
    DustMirrors(dist, Pulled(net, c), Pulled(ext, c));
  }

  lemma DistWithin(net: Network, c: Config)
    requires c.seeds != {} && EdgesClosed(Whole(net, c))
    ensures DistOf(net, c).Keys <= net.nodes + c.seeds && DistOf(net, c) != map[]
  {
    LinksOfRanked(net, c);
    ReachWithin(Whole(net, c), c);
    assert Whole(net, c).nodes + c.seeds == net.nodes + c.seeds;
    DistIsReach(net, c);
  }

  lemma SameReachOf(net: Network, ext: Network, c: Config)
    requires c.seeds != {} && IslandsAdded(net, ext, c)
    ensures ReachOf(HopsOf(net, c)) == ReachOf(HopsOf(ext, c)) == Some(DistOf(net, c).Keys)
  {
    AddedAreIslands(net, ext, c);
    SameDistances(AsPull(c), Ranked(net, c), Ranked(ext, c));
    DistIsReach(net, c);
  }

  // ---- the promises -----------------------------------------------------------------

  /** An account that no seed reaches ends with nothing: not even the rounding remainder. */
  lemma UnreachedGetNothing(net: Network, c: Config, v: nat)
    requires c.seeds != {} && EdgesClosed(Whole(net, c)) && !SeedReached(net, c, v)
    ensures Get(Kernel(net, c).scores, v) == 0
  {
    assert IslandsAdded(net, net, c);
    KernelMirrors(net, net, c);
    DistIsReach(net, c);
    assert Get(Kernel(net, c).scores, v) == Get(Kernel(net, c).scores, v) && v !in DistOf(net, c);
  }

  /** Adding accounts that no seed reaches, and any edges out of unreached accounts, changes no published
      score, not the iteration count and not the convergence flag. */
  lemma KernelIgnoresIslands(net: Network, ext: Network, c: Config)
    requires c.seeds != {} && IslandsAdded(net, ext, c) && EdgesClosed(Whole(net, c))
    ensures forall v :: Get(Kernel(net, c).scores, v) == Get(Kernel(ext, c).scores, v)
    ensures forall v :: !SeedReached(net, c, v) ==> Get(Kernel(ext, c).scores, v) == 0
    ensures Kernel(net, c).iterations == Kernel(ext, c).iterations
      && Kernel(net, c).converged == Kernel(ext, c).converged
  {
    KernelMirrors(net, ext, c);
    PulledMirror(net, ext, c);
    DistIsReach(net, c);
  }

  // ---- where the kernel starts --------------------------------------------------------

  ghost function ReachedOthers(net: Network, c: Config): set<nat>
  {
    set v | v in net.nodes + c.seeds && v !in c.seeds && SeedReached(net, c, v)
  }

  lemma OthersAre(net: Network, c: Config, reach: Reach)
    requires EdgesClosed(net) && c.seeds != {} && reach == ReachOf(HopsOf(net, c))
    ensures reach.Some? && reach.value - c.seeds == ReachedOthers(net, c)
    ensures forall v :: v in reach.value <==> SeedReached(net, c, v)
  {
    DistIsReach(net, c);
    HopsWithin(net, c);
  }

  lemma ScoreByReach(net: Network, c: Config, reach: Reach, others: set<nat>, v: nat)
    requires c.seeds != {} && reach.Some? && reach.value - c.seeds == others
    requires forall u :: u in reach.value <==> SeedReached(net, c, u)
    ensures InitialScore(c, reach, |net.nodes + c.seeds|, v) ==
      if v in c.seeds then Divided(c.trustShare, |c.seeds|)
      else if SeedReached(net, c, v) then Divided(S - c.trustShare, |others|)
      else 0
  {
  }

  /** Without seeds all accounts start alike; otherwise the seeds share the trust share, the other accounts in
      their reach the rest, and nobody else starts with anything. */
  lemma KernelStarts(net: Network, c: Config, v: nat, start: int, others: set<nat>)
    requires EdgesClosed(net) && v in net.nodes + c.seeds
    requires start == InitialOf(net, c)[v] && others == ReachedOthers(net, c)
    ensures start ==
      if c.seeds == {} then Divided(S, |net.nodes + c.seeds|)
      else if v in c.seeds then Divided(c.trustShare, |c.seeds|)
      else if SeedReached(net, c, v) then Divided(S - c.trustShare, |others|)
      else 0
  {
    InitialScoreIs(net, c, v);
    var reach := ReachOf(HopsOf(net, c));
    if c.seeds != {} {
      OthersAre(net, c, reach);
      ScoreByReach(net, c, reach, others, v);
    }
  }
}
