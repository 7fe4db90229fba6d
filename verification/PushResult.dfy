/** The whole production kernel, with its dust: `calculate_generic_detailed` and `normalize` of
    crates/pagerank-core/src/pagerank.rs. */
module PushResult {
  import opened Wrappers
  import opened Totals
  import opened Ordering
  import opened FixedPoint
  import opened Graph
  import opened PageRank
  import opened DecaySearch
  import opened PushRank
  import opened PushKernel
  import opened MassBound
  import Bfs

  // ---- the initial scores ------------------------------------------------------

  ghost function HopsOf(net: Network, c: Config): Hopcounts { HopsFrom(Ranked(net, c), c.seeds) }

  ghost function InitialOf(net: Network, c: Config): map<nat, int> { Start(AsPull(c), Ranked(net, c)) }

  lemma LinksOfRanked(net: Network, c: Config)
    ensures Links(Ranked(net, c)) == CarryingLinks(net.outgoing)
  {
  }

  /** In a closed graph only ranked accounts are reached. */
  lemma ReachWithin(net: Network, c: Config)
    requires EdgesClosed(net)
    ensures Bfs.Distances(CarryingLinks(net.outgoing), c.seeds).Keys <= net.nodes + c.seeds
  {
    var g, s := CarryingLinks(net.outgoing), net.nodes + c.seeds;
    ClosureIsReachable(g, c.seeds);
    forall v | v in Closure(g, c.seeds) ensures v in s {
      var k: nat :| v in Ball(g, c.seeds, k);
      BallWithin(g, c.seeds, s, k);
    }
  }

  function InitialScore(c: Config, reach: Reach, count: nat, v: nat): int
  {
    if c.seeds == {} then Divided(S, count)
    else if v in c.seeds then Divided(c.trustShare, |c.seeds|)
    else if reach.Some? && v in reach.value then Divided(S - c.trustShare, |reach.value - c.seeds|)
    else 0
  }

  lemma UniformScore(c: Config, ranked: Network, v: nat)
    requires c.seeds == {} && v in ranked.nodes
    ensures Initial(AsPull(c), ranked, map[])[v] == Divided(S, |ranked.nodes|)
  {
    assert EffectiveSeeds(AsPull(c), ranked) == None;
    assert ranked.nodes != {};
  }

  lemma EndowedScore(c: Config, ranked: Network, dist: map<nat, nat>, v: nat)
    requires c.seeds != {} && v in ranked.nodes && dist.Keys <= ranked.nodes
    ensures Initial(AsPull(c), ranked, dist)[v] ==
      if v in c.seeds then Divided(c.trustShare, |c.seeds|)
      else if v in dist then Divided(S - c.trustShare, |dist.Keys - c.seeds|)
      else 0
  {
    assert Regulars(AsPull(c), ranked, c.seeds, dist) == dist.Keys - c.seeds;
    assert EffectiveSeeds(AsPull(c), ranked) == Some(c.seeds);
  }

  function DistIn(hops: Hopcounts): map<nat, nat> { if hops.None? then map[] else hops.value }

  lemma InitialScoreWith(c: Config, ranked: Network, hops: Hopcounts, v: nat)
    requires v in ranked.nodes && DistIn(hops).Keys <= ranked.nodes && (hops.None? <==> c.seeds == {})
    ensures InitialScore(c, ReachOf(hops), |ranked.nodes|, v) == Initial(AsPull(c), ranked, DistIn(hops))[v]
  {
    if c.seeds == {} { UniformScore(c, ranked, v); } else { EndowedScore(c, ranked, hops.value, v); }
  }

  lemma HopsWithin(net: Network, c: Config)
    requires EdgesClosed(net)
    ensures DistIn(HopsOf(net, c)).Keys <= net.nodes + c.seeds && (HopsOf(net, c).None? <==> c.seeds == {})
  {
    LinksOfRanked(net, c);
    ReachWithin(net, c);
  }

  lemma InitialScoreIs(net: Network, c: Config, v: nat)
    requires EdgesClosed(net) && v in net.nodes + c.seeds
    ensures InitialScore(c, ReachOf(HopsOf(net, c)), |net.nodes + c.seeds|, v) == InitialOf(net, c)[v]
  {
    HopsWithin(net, c);
    InitialScoreWith(c, Ranked(net, c), HopsOf(net, c), v);
  }

  /** `initialize_scores`. */
  method InitializeScores(net: Network, c: Config, ghost hops: Hopcounts, reach: Reach, nodes: seq<nat>)
    returns (out: map<nat, int>)
    requires EdgesClosed(net) && hops == HopsOf(net, c) && reach == ReachOf(hops)
      && nodes == AscendingNats(net.nodes + c.seeds)
    ensures out == InitialOf(net, c)
  {
    out := map[];
    ghost var whole := InitialOf(net, c);
    for i := 0 to |nodes|
      invariant out == Part(whole, nodes[..i])
    {
      PartSnoc(whole, nodes, i);
      InitialScoreIs(net, c, nodes[i]);
      out := out[nodes[i] := InitialScore(c, reach, |nodes|, nodes[i])];
    }
    AscendingNatsMembers(net.nodes + c.seeds);
    PartAll(whole, nodes);
  }

  // ---- the run -------------------------------------------------------------------

  ghost predicate Ready(c: Config, net: Network, hops: Hopcounts, decays: Decays, rows: Rows, nodes: seq<nat>) {
    && EdgesClosed(net) && DecaysOf(decays, hops, c.trustDecay) && Hoisted(rows, net, ReachOf(hops), nodes)
    && nodes == AscendingNats(net.nodes + c.seeds)
  }

  ghost function WholeRun(c: Config, net: Network, hops: Hopcounts, initial: map<nat, int>): Rank
  {
    Run(AsPull(c), Ranked(net, c), hops, initial, initial, 0)
  }

  /** No later scores add up to more than the scale. */
  ghost predicate StaysWithin(cfg: Cfg, ranked: Network, hops: Hopcounts, initial: map<nat, int>,
                              current: map<nat, int>) {
    forall k: nat :: Total(After(cfg, ranked, hops, initial, current, k)) <= S
  }

  lemma StaysWithinFrom(c: Config, net: Network, hops: Hopcounts, initial: map<nat, int>)
    requires Accepted(c, net) && initial.Keys == net.nodes + c.seeds && WithinScale(initial)
    ensures StaysWithin(AsPull(c), Ranked(net, c), hops, initial, initial)
  {
    RankedSound(c, net);
    forall k: nat ensures Total(After(AsPull(c), Ranked(net, c), hops, initial, initial, k)) <= S {
      AfterWithinScale(AsPull(c), Ranked(net, c), hops, initial, initial, k);
    }
  }

  lemma AfterNext(cfg: Cfg, ranked: Network, hops: Hopcounts, initial: map<nat, int>, current: map<nat, int>,
                  next: map<nat, int>, k: nat)
    requires next == Step(cfg, ranked, hops, initial, current)
    ensures After(cfg, ranked, hops, initial, current, k + 1) == After(cfg, ranked, hops, initial, next, k)
  {
  }

  lemma StaysWithinStep(cfg: Cfg, ranked: Network, hops: Hopcounts, initial: map<nat, int>, current: map<nat, int>,
                        next: map<nat, int>)
    requires StaysWithin(cfg, ranked, hops, initial, current) && next == Step(cfg, ranked, hops, initial, current)
    ensures StaysWithin(cfg, ranked, hops, initial, next)
  {
    forall k: nat ensures Total(After(cfg, ranked, hops, initial, next, k)) <= S {
      AfterNext(cfg, ranked, hops, initial, current, next, k);
      assert Total(After(cfg, ranked, hops, initial, current, k + 1)) <= S;
    }
  }

  lemma WithinNow(cfg: Cfg, ranked: Network, hops: Hopcounts, initial: map<nat, int>, current: map<nat, int>)
    requires StaysWithin(cfg, ranked, hops, initial, current)
    ensures Total(current) <= S
  {
    assert After(cfg, ranked, hops, initial, current, 0) == current;
  }

  /** Before iteration `it` the rest of the run starts from `current`. */
  ghost predicate Running(c: Config, net: Network, hops: Hopcounts, initial: map<nat, int>, current: map<nat, int>,
                          it: nat, whole: Rank) {
    && current.Keys == net.nodes + c.seeds && StaysWithin(AsPull(c), Ranked(net, c), hops, initial, current)
    && whole == Run(AsPull(c), Ranked(net, c), hops, initial, current, it)
  }

  lemma NextTotal(c: Config, net: Network, hops: Hopcounts, initial: map<nat, int>, current: map<nat, int>,
                  next: map<nat, int>)
    requires initial.Keys == net.nodes + c.seeds && StaysWithin(AsPull(c), Ranked(net, c), hops, initial, current)
    requires next == PushedScores(c, net, hops, initial, current)
    ensures Total(next) <= S
  {
    PushIsPull(c, net, hops, initial, current);
    StaysWithinStep(AsPull(c), Ranked(net, c), hops, initial, current, next);
    WithinNow(AsPull(c), Ranked(net, c), hops, initial, next);
  }

  lemma RunStep(cfg: Cfg, ranked: Network, hops: Hopcounts, initial: map<nat, int>, current: map<nat, int>, it: nat,
                next: map<nat, int>, whole: Rank)
    requires whole == Run(cfg, ranked, hops, initial, current, it) && it < cfg.maxIterations
    requires next == Step(cfg, ranked, hops, initial, current)
    ensures if Settled(cfg, ranked, hops, current, next) then whole == Rank(next, it + 1, Some(true))
      else whole == Run(cfg, ranked, hops, initial, next, it + 1)
  {
  }

  /** An iteration either ends the run or leads to the rest of it. */
  lemma RunOn(c: Config, net: Network, hops: Hopcounts, initial: map<nat, int>, current: map<nat, int>, it: nat,
              next: map<nat, int>, settled: bool, whole: Rank)
    requires initial.Keys == net.nodes + c.seeds
    requires Running(c, net, hops, initial, current, it, whole) && it < c.maxIterations
    requires next == PushedScores(c, net, hops, initial, current) && SettledWhen(c, net, hops, current, next, settled)
    ensures settled ==> whole == Rank(next, it + 1, Some(true))
    ensures !settled ==> Running(c, net, hops, initial, next, it + 1, whole)
  {
    PushIsPull(c, net, hops, initial, current);
    StaysWithinStep(AsPull(c), Ranked(net, c), hops, initial, current, next);
    RunStep(AsPull(c), Ranked(net, c), hops, initial, current, it, next, whole);
  }

  lemma RunDone(c: Config, net: Network, hops: Hopcounts, initial: map<nat, int>, current: map<nat, int>, whole: Rank)
    requires Running(c, net, hops, initial, current, c.maxIterations, whole)
    ensures whole == Rank(current, c.maxIterations, Some(false))
  {
  }

  /** One turn of the loop: the source's assertion lets it pass, and it ends the run or goes on with `next`. */
  method Turn(c: Config, net: Network, ghost hops: Hopcounts, decays: Decays, rows: Rows, nodes: seq<nat>,
              ghost initial: map<nat, int>, teleport: map<nat, int>, current: map<nat, int>, it: nat, ghost whole: Rank)
    returns (ok: bool, stop: bool, next: map<nat, int>)
    requires Ready(c, net, hops, decays, rows, nodes) && initial.Keys == net.nodes + c.seeds
    requires teleport == Teleport(c, initial) && it < c.maxIterations
    requires Running(c, net, hops, initial, current, it, whole)
    ensures ok
    ensures stop ==> whole == Rank(next, it + 1, Some(true))
    ensures !stop ==> Running(c, net, hops, initial, next, it + 1, whole)
  {
    ok, next, stop := Iteration(c, net, hops, decays, rows, nodes, initial, teleport, current);
    NextTotal(c, net, hops, initial, current, next);
    RunOn(c, net, hops, initial, current, it, next, stop, whole);
  }

  /** The iteration loop; the assertion on the total never fires. */
  method Iterate(c: Config, net: Network, ghost hops: Hopcounts, decays: Decays, rows: Rows, nodes: seq<nat>,
                 initial: map<nat, int>, ghost whole: Rank)
    returns (r: Option<Rank>)
    requires Ready(c, net, hops, decays, rows, nodes) && initial.Keys == net.nodes + c.seeds
    requires Running(c, net, hops, initial, initial, 0, whole)
    ensures r == Some(whole)
  {
    var teleport := Teleport(c, initial);
    var current := initial;
    for it := 0 to c.maxIterations
      invariant Running(c, net, hops, initial, current, it, whole)
    {
      var ok, stop, next := Turn(c, net, hops, decays, rows, nodes, initial, teleport, current, it, whole);
      if !ok { return None; }
      if stop { return Some(Rank(next, it + 1, Some(true))); }
      current := next;
    }
    RunDone(c, net, hops, initial, current, whole);
    r := Some(Rank(current, c.maxIterations, Some(false)));
  }

  // ---- normalisation and dust ---------------------------------------------------------

  function NonZero(m: map<nat, int>): set<nat> { set v | v in m && m[v] != 0 }

  function Reached(m: map<nat, int>, reach: Reach): set<nat> { set v | v in m && reach.Some? && v in reach.value }

  /** The first positive account; failing that, the first reachable one; failing that, the first. */
  function DustRecipient(m: map<nat, int>, reach: Reach): (v: nat)
    requires m != map[]
    ensures v in m
  {
    assert m.Keys != {};
    if NonZero(m) != {} then Minimum(NonZero(m))
    else if Reached(m, reach) != {} then Minimum(Reached(m, reach))
    else Minimum(m.Keys)
  }

  ghost predicate Unscored(m: map<nat, int>) { forall u :: u in m ==> m[u] == 0 }

  ghost predicate LeastScored(m: map<nat, int>, v: nat) {
    v in m && m[v] != 0 && forall u :: u in m && m[u] != 0 ==> v <= u
  }

  ghost predicate LeastReached(m: map<nat, int>, reach: Reach, v: nat) {
    v in m && reach.Some? && v in reach.value && forall u :: u in m && u in reach.value ==> v <= u
  }

  lemma LeastOfNonZero(m: map<nat, int>)
    ensures NonZero(m) == {} <==> Unscored(m)
    ensures NonZero(m) != {} ==> LeastScored(m, Minimum(NonZero(m)))
  {
    forall u | u in m && m[u] != 0 ensures u in NonZero(m) {}
    if NonZero(m) != {} {
      var v := Minimum(NonZero(m));
      forall u | u in m && m[u] != 0 ensures v <= u { assert u in NonZero(m); }
    }
  }

  lemma LeastOfReached(m: map<nat, int>, reach: Reach)
    requires Reached(m, reach) != {}
    ensures LeastReached(m, reach, Minimum(Reached(m, reach)))
  {
    var v := Minimum(Reached(m, reach));
    forall u | u in m && u in reach.value ensures v <= u { assert u in Reached(m, reach); }
  }

  /** The least account with a score takes the dust; without scores, the least in reach. */
  lemma DustGoesToLeast(m: map<nat, int>, reach: Reach, v: nat)
    requires m != map[] && v == DustRecipient(m, reach)
    ensures !Unscored(m) ==> LeastScored(m, v)
    ensures Unscored(m) && Reached(m, reach) != {} ==> LeastReached(m, reach, v)
  {
    LeastOfNonZero(m);
    if Reached(m, reach) != {} { LeastOfReached(m, reach); }
  }

  ghost function Dusted(m: map<nat, int>, reach: Reach): map<nat, int>
    requires m != map[]
  {
    m[DustRecipient(m, reach) := m[DustRecipient(m, reach)] + (S - Total(m))]
  }

  /** Whatever flooring lost comes back: the result adds up to the scale exactly. */
  lemma DustedTotal(m: map<nat, int>, reach: Reach)
    requires m != map[]
    ensures Total(Dusted(m, reach)) == S && Dusted(m, reach).Keys == m.Keys
  {
    TotalUpdate(m, DustRecipient(m, reach), m[DustRecipient(m, reach)] + (S - Total(m)));
  }

  lemma NoDust(m: map<nat, int>, reach: Reach)
    requires m != map[]
    ensures Total(m) == S ==> Dusted(m, reach) == m
  {
  }

  lemma NormalizedWithin(scores: map<nat, int>)
    requires WithinScale(scores)
    ensures WithinScale(Normalized(scores)) && Normalized(scores).Keys == scores.Keys
  {
    TotalNonNegative(scores);
    if Total(scores) > 0 {
      NormalizedTotal(scores);
      forall v | v in scores ensures Normalized(scores)[v] >= 0 {
        Scaled(S, 0, scores[v]);
        DivisionMonotone(0, scores[v] * S, Total(scores));
      }
    }
  }

  /** The first element of an ascending list that satisfies a test, by the position found. */
  lemma FirstIsMinimum(nodes: seq<nat>, chosen: set<nat>, i: nat)
    requires i < |nodes| && nodes[i] in chosen && (forall v :: v in chosen ==> v in nodes)
    requires (forall a, b :: 0 <= a < b < |nodes| ==> nodes[a] < nodes[b]) && forall j :: 0 <= j < i ==>
      nodes[j] !in chosen
    ensures chosen != {} && Minimum(chosen) == nodes[i]
  {
    var m := Minimum(chosen);
    assert m in nodes;
    var k :| 0 <= k < |nodes| && nodes[k] == m;
    assert IsLeast(chosen, m) && m <= nodes[i];
  }

  method FindFirst(nodes: seq<nat>, chosen: set<nat>) returns (r: Option<nat>)
    requires (forall v :: v in chosen ==> v in nodes) && forall a, b :: 0 <= a < b < |nodes| ==> nodes[a] < nodes[b]
    ensures r == if chosen == {} then None else Some(Minimum(chosen))
  {
    for i := 0 to |nodes|
      invariant forall j :: 0 <= j < i ==> nodes[j] !in chosen
    {
      if nodes[i] in chosen {
        FirstIsMinimum(nodes, chosen, i);
        return Some(nodes[i]);
      }
    }
    assert forall v :: v !in chosen;
    r := None;
  }

  /** The search for the account that takes the dust. */
  method FindRecipient(m: map<nat, int>, reach: Reach) returns (v: nat)
    requires m != map[]
    ensures v == DustRecipient(m, reach)
  {
    var nodes := AscendingNats(m.Keys);
    AscendingNatsMembers(m.Keys);
    var first := FindFirst(nodes, NonZero(m));
    if first.Some? { return first.value; }
    first := FindFirst(nodes, Reached(m, reach));
    if first.Some? { return first.value; }
    assert m.Keys != {};
    v := Minimum(m.Keys);
  }

  /** `normalize`; `None` where the normalised total would pass the scale. */
  method Normalize(scores: map<nat, int>, reach: Reach) returns (r: Option<map<nat, int>>)
    requires scores != map[] && WithinScale(scores)
    ensures r == Some(Dusted(Normalized(scores), reach))
  {
    var total := AddTotal(scores);
    var normal := scores;
    if total != 0 { normal := map v | v in scores :: FpDiv(scores[v], total); }
    assert normal == Normalized(scores);
    NormalizedWithin(scores);
    var normalizedTotal := AddTotal(normal);
    r := None;
    if normalizedTotal > S { return; }
    var remainder := S - normalizedTotal;
    NoDust(normal, reach);
    if remainder == 0 { return Some(normal); }
    var recipient := FindRecipient(normal, reach);
    r := Some(normal[recipient := normal[recipient] + remainder]);
  }

  // ---- the kernel -----------------------------------------------------------------------

  ghost function RawKernel(net: Network, c: Config): Rank { WholeRun(c, net, HopsOf(net, c), InitialOf(net, c)) }

  lemma RawKernelKeys(net: Network, c: Config)
    ensures RawKernel(net, c).scores.Keys == net.nodes + c.seeds
  {
    RunKeys(AsPull(c), Ranked(net, c), HopsOf(net, c), InitialOf(net, c), InitialOf(net, c), 0);
  }

  /** What the kernel returns on a closed graph: the pull form's run, normalised and dusted. */
  ghost function Kernel(net: Network, c: Config): Rank
  {
    if net.nodes + c.seeds == {} then Rank(map[], 0, Some(true)) else
      RawKernelKeys(net, c);
      RawKernel(net, c).(scores := Dusted(Normalized(RawKernel(net, c).scores), ReachOf(HopsOf(net, c))))
  }

  lemma RawKernelWithinScale(net: Network, c: Config)
    requires Accepted(c, net)
    ensures WithinScale(InitialOf(net, c)) && WithinScale(RawKernel(net, c).scores)
  {
    RankedSound(c, net);
    StartWithinScale(AsPull(c), Ranked(net, c));
    RunWithinScale(AsPull(c), Ranked(net, c), HopsOf(net, c), InitialOf(net, c), InitialOf(net, c), 0);
  }

  /** The inputs that the parameter and weight types admit. */
  ghost predicate Admissible(c: Config, net: Network) {
    NonNegativeWeights(net) && c.damping <= S && c.trustShare <= S && c.trustDecay <= S
  }

  method FindDecays(net: Network, c: Config) returns (decays: Decays)
    ensures DecaysOf(decays, HopsOf(net, c), c.trustDecay)
  {
    LinksOfRanked(net, c);
    decays := None;
    if c.seeds != {} {
      var found := BfsDecays(net.outgoing, c.seeds, c.trustDecay);
      decays := Some(found);
    }
  }

  /** The run on a nonempty closed graph, before normalisation. */
  method RunKernel(net: Network, c: Config, decays: Decays) returns (r: Option<Rank>)
    requires Accepted(c, net) && DecaysOf(decays, HopsOf(net, c), c.trustDecay)
    ensures r == Some(RawKernel(net, c))
  {
    ghost var hops := HopsOf(net, c);
    var nodes := AscendingNats(net.nodes + c.seeds);
    var initial := InitializeScores(net, c, hops, ReachIn(decays), nodes);
    RawKernelWithinScale(net, c);
    var rows := HoistRatios(net, ReachIn(decays), nodes);
    StaysWithinFrom(c, net, hops, initial);
    r := Iterate(c, net, hops, decays, rows, nodes, initial, RawKernel(net, c));
  }

  /** The node set with the seeds in it, which the kernel ranks. */
  function Whole(net: Network, c: Config): Network { Network(net.nodes + c.seeds, net.outgoing) }

  lemma SameKernel(net: Network, c: Config)
    ensures Kernel(Whole(net, c), c) == Kernel(net, c)
  {
    assert Whole(net, c).nodes + c.seeds == net.nodes + c.seeds;
    assert Ranked(Whole(net, c), c) == Ranked(net, c);
  }

  /** `calculate_generic_detailed`: only an edge that leaves the node set stops it; neither run-time
      assertion on a total can fire. */
  method Calculate(net: Network, c: Config) returns (r: Option<Rank>)
    requires Admissible(c, net)
    ensures r == if EdgesClosed(Whole(net, c)) then Some(Kernel(net, c)) else None
  {
    var whole := Whole(net, c);
    r := None;
    if !EdgesClosed(whole) { return; }
    SameKernel(net, c);
    if whole.nodes == {} { return Some(Rank(map[], 0, Some(true))); }
    r := CalculateWhole(whole, c);
  }

  method CalculateWhole(net: Network, c: Config) returns (r: Option<Rank>)
    requires Accepted(c, net) && net.nodes + c.seeds != {}
    ensures r == Some(Kernel(net, c))
  {
    var decays := FindDecays(net, c);
    r := RunKernel(net, c, decays);
    if r.None? { return; }
    RawKernelKeys(net, c);
    RawKernelWithinScale(net, c);
    var scores := Normalize(r.value.scores, ReachIn(decays));
    if scores.None? { return None; }
    r := Some(r.value.(scores := scores.value));
  }

  // ---- what the kernel promises ----------------------------------------------------

  /** Its scores are the pull form's normalised scores, and the dust is the only difference. */
  lemma KernelIsPull(net: Network, c: Config)
    requires net.nodes + c.seeds != {}
    ensures var pull := PageRank.Calculated(AsPull(c), Ranked(net, c));
      && Kernel(net, c).iterations == pull.iterations && Kernel(net, c).converged == pull.converged
      && pull.scores != map[] && Kernel(net, c).scores == Dusted(pull.scores, ReachOf(HopsOf(net, c)))
  {
    RawKernelKeys(net, c);
  }

  /** The published scores are not negative and add up to exactly the scale. */
  lemma KernelTotal(net: Network, c: Config)
    requires Accepted(c, net) && net.nodes + c.seeds != {}
    ensures Total(Kernel(net, c).scores) == S && Kernel(net, c).scores.Keys == net.nodes + c.seeds
    ensures forall v :: v in Kernel(net, c).scores ==> 0 <= Kernel(net, c).scores[v] <= S
  {
    RawKernelKeys(net, c);
    RawKernelWithinScale(net, c);
    NormalizedWithin(RawKernel(net, c).scores);
    DustedTotal(Normalized(RawKernel(net, c).scores), ReachOf(HopsOf(net, c)));
    DustedNonNegative(Normalized(RawKernel(net, c).scores), ReachOf(HopsOf(net, c)));
  }

  ghost function Pulled(net: Network, c: Config): map<nat, int>
  {
    PageRank.Calculated(AsPull(c), Ranked(net, c)).scores
  }

  ghost predicate DustedBy(m: map<nat, int>, v: nat, published: map<nat, int>) {
    && v in m && published == m[v := m[v] + (S - Total(m))]
    && (!Unscored(m) ==> LeastScored(m, v))
  }

  lemma KernelIsDusted(net: Network, c: Config, m: map<nat, int>)
    requires net.nodes + c.seeds != {} && m == Pulled(net, c)
    ensures m != map[] && Kernel(net, c).scores == Dusted(m, ReachOf(HopsOf(net, c)))
  {
    KernelIsPull(net, c);
  }

  lemma DustOfPulled(published: map<nat, int>, m: map<nat, int>, reach: Reach) returns (v: nat)
    requires m != map[] && published == Dusted(m, reach)
    ensures DustedBy(m, v, published)
  {
    v := DustOf(m, reach);
  }

  /** What normalisation lost goes to one account: the least that has a score, if any has one. */
  lemma KernelDust(net: Network, c: Config) returns (v: nat)
    requires net.nodes + c.seeds != {}
    ensures DustedBy(Pulled(net, c), v, Kernel(net, c).scores)
  {
    KernelIsDusted(net, c, Pulled(net, c));
    v := DustOfPulled(Kernel(net, c).scores, Pulled(net, c), ReachOf(HopsOf(net, c)));
  }

  lemma DustOf(m: map<nat, int>, reach: Reach) returns (v: nat)
    requires m != map[]
    ensures v in m && Dusted(m, reach) == m[v := m[v] + (S - Total(m))]
    ensures !Unscored(m) ==> LeastScored(m, v)
  {
    v := DustRecipient(m, reach);
    DustGoesToLeast(m, reach, v);
  }

  lemma DustedNonNegative(m: map<nat, int>, reach: Reach)
    requires m != map[] && WithinScale(m)
    ensures forall v :: v in Dusted(m, reach) ==> 0 <= Dusted(m, reach)[v] <= S
  {
    var r := Dusted(m, reach);
    DustedTotal(m, reach);
    forall v | v in r ensures r[v] <= S {
      TotalAtLeast(r, v);
    }
  }
}
