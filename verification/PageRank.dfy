/** The integer trust-aware PageRank of research/scoring-sim/tg.py. */
module PageRank {
  import opened Wrappers
  import opened Totals
  import opened Ordering
  import opened FixedPoint
  import opened Graph
  import Bfs

  datatype Cfg = Cfg(
    damping: int, tolerance: int, maxIterations: int, trustMultiplier: int, trustShare: int, trustDecay: int,
    seeds: set<nat>, f15: bool, f5d: bool, fixMultiplier: bool, fixSeedDivisor: bool)

  type Outgoing = map<nat, map<nat, int>>

  datatype Network = Network(nodes: set<nat>, outgoing: Outgoing)

  /** `None` when no seed is configured. */
  type Hopcounts = Option<map<nat, nat>>

  /** `converged` is `None` where the source returns no flag. */
  datatype Rank = Rank(scores: map<nat, int>, iterations: int, converged: Option<bool>)

  function Edges(net: Network, a: nat): map<nat, int> { if a in net.outgoing then net.outgoing[a] else map[] }

  /** The graph that the search follows: every listed edge, whatever its weight. */
  function Links(net: Network): Adjacency { map a | a in net.outgoing :: net.outgoing[a].Keys }

  ghost function HopsFrom(net: Network, seeds: set<nat>): Hopcounts
  {
    if seeds == {} then None else Some(Bfs.Distances(Links(net), seeds))
  }

  // ---- the initial scores ------------------------------------------------

  function Vouched(net: Network): set<nat>
  {
    set a, t | a in net.outgoing && t in net.outgoing[a] && net.outgoing[a][t] > 0 && a != t :: t
  }

  function Uniform(net: Network): map<nat, int>
    requires net.nodes != {}
  {
    map v | v in net.nodes :: S / |net.nodes|
  }

  function Divided(amount: int, count: nat): int { if count == 0 then 0 else amount / count }

  /** The seeds that hold the prior, `None` when the configuration falls back to uniform scores. */
  function EffectiveSeeds(cfg: Cfg, net: Network): Option<set<nat>>
  {
    var vouched := if cfg.f5d then cfg.seeds * Vouched(net) else cfg.seeds;
    var present := if cfg.fixSeedDivisor then vouched * net.nodes else vouched;
    if cfg.seeds == {} || (cfg.f5d && vouched == {}) || (cfg.fixSeedDivisor && present == {}) then None
    else Some(present)
  }

  function Regulars(cfg: Cfg, net: Network, seeds: set<nat>, dist: map<nat, nat>): set<nat>
  {
    set v | v in net.nodes && v !in seeds && (cfg.f15 ==> v in dist)
  }

  /** `initialize_scores`. */
  function Initial(cfg: Cfg, net: Network, dist: map<nat, nat>): (r: map<nat, int>)
    ensures r.Keys == net.nodes
  {
    if net.nodes == {} then map[] else
      match EffectiveSeeds(cfg, net)
      case None => Uniform(net)
      case Some(seeds) =>
        var trustedCount := if cfg.f5d || cfg.fixSeedDivisor then |seeds| else |cfg.seeds|;
        var regulars := Regulars(cfg, net, seeds, dist);
        map v | v in net.nodes ::
          if v in seeds then Divided(cfg.trustShare, trustedCount)
          else if v in regulars then Divided(S - cfg.trustShare, |regulars|)
          else 0
  }

  // ---- one step ----------------------------------------------------------

  function Carries(a: nat, t: nat, w: int): bool { t != a && w != 0 }

  function Weight(cfg: Cfg, a: nat, t: nat, w: int): int
  {
    if !Carries(a, t, w) then 0
    else if cfg.fixMultiplier && a in cfg.seeds then FpMul(w, cfg.trustMultiplier)
    else w
  }

  /** The weights of a row; self-edges and zero edges weigh nothing. */
  function Row(cfg: Cfg, net: Network, a: nat): map<nat, int>
  {
    map t | t in Edges(net, a) :: Weight(cfg, a, t, Edges(net, a)[t])
  }

  function DecayPow(base: int, dist: nat): int
  {
    if dist == 0 then S else FpMul(DecayPow(base, dist - 1), base)
  }

  function Decay(cfg: Cfg, hops: Hopcounts, a: nat): int
  {
    match hops
    case None => S
    case Some(dist) => if a in dist then DecayPow(cfg.trustDecay, dist[a]) else 0
  }

  function Boosted(cfg: Cfg, a: nat, w: int): int
  {
    if !cfg.fixMultiplier && a in cfg.seeds then FpMul(w, cfg.trustMultiplier) else w
  }

  /** What flows along one edge, given the row's total. */
  function Flow(cfg: Cfg, hops: Hopcounts, score: int, a: nat, w: int, rowTotal: int): int
    requires rowTotal != 0
  {
    FpMul(cfg.damping, FpMul(FpMul(score, FpDiv(Boosted(cfg, a, w), rowTotal)), Decay(cfg, hops, a)))
  }

  ghost function Contribution(cfg: Cfg, net: Network, hops: Hopcounts, current: map<nat, int>, a: nat, r: nat): int
  {
    var row := Row(cfg, net, a);
    if !Found(net, a, r) || Total(row) == 0 then 0
    else Flow(cfg, hops, Get(current, a), a, row[r], Total(row))
  }

  predicate Reachable(hops: Hopcounts, v: nat) { hops.None? || v in hops.value }

  ghost function Inflows(cfg: Cfg, net: Network, hops: Hopcounts, current: map<nat, int>, r: nat): map<nat, int>
  {
    map a | a in net.nodes :: Contribution(cfg, net, hops, current, a, r)
  }

  ghost function NewScore(cfg: Cfg, net: Network, hops: Hopcounts, initial: map<nat, int>, current: map<nat, int>,
                          r: nat): int
  {
    FpMul(S - cfg.damping, Get(initial, r))
      + (if Reachable(hops, r) then Total(Inflows(cfg, net, hops, current, r)) else 0)
  }

  ghost function Step(cfg: Cfg, net: Network, hops: Hopcounts, initial: map<nat, int>,
                      current: map<nat, int>): map<nat, int>
  {
    map r | r in net.nodes :: NewScore(cfg, net, hops, initial, current, r)
  }

  /** The convergence test: the largest change of a reachable score is below the tolerance. */
  ghost predicate Settled(cfg: Cfg, net: Network, hops: Hopcounts, before: map<nat, int>, after: map<nat, int>)
  {
    0 < cfg.tolerance &&
      forall r :: r in net.nodes && Reachable(hops, r) ==> Abs(Get(after, r) - Get(before, r)) < cfg.tolerance
  }

  // ---- the iteration -----------------------------------------------------

  ghost function Run(cfg: Cfg, net: Network, hops: Hopcounts, initial: map<nat, int>, current: map<nat, int>,
                     it: nat): Rank
    decreases cfg.maxIterations - it
  {
    if it >= cfg.maxIterations then Rank(current, cfg.maxIterations, Some(false)) else
      var next := Step(cfg, net, hops, initial, current);
      if Settled(cfg, net, hops, current, next) then Rank(next, it + 1, Some(true))
      else Run(cfg, net, hops, initial, next, it + 1)
  }

  /** The scores `k` steps after `current`, whether or not a run stops earlier. */
  ghost function After(cfg: Cfg, net: Network, hops: Hopcounts, initial: map<nat, int>, current: map<nat, int>,
                       k: nat): map<nat, int>
    decreases k
  {
    if k == 0 then current else After(cfg, net, hops, initial, Step(cfg, net, hops, initial, current), k - 1)
  }

  ghost function Normalized(scores: map<nat, int>): (r: map<nat, int>)
    ensures r.Keys == scores.Keys
  {
    if Total(scores) == 0 then scores else map v | v in scores :: FpDiv(scores[v], Total(scores))
  }

  /** `calculate` before normalisation. */
  ghost function RawRank(cfg: Cfg, net: Network): Rank
  {
    var hops := HopsFrom(net, cfg.seeds);
    var initial := Initial(cfg, net, if hops.None? then map[] else hops.value);
    Run(cfg, net, hops, initial, initial, 0)
  }

  /** `calculate`; an empty network reports no iteration and no flag. */
  ghost function Calculated(cfg: Cfg, net: Network): Rank
  {
    if net.nodes == {} then Rank(map[], 0, None) else
      var raw := RawRank(cfg, net);
      raw.(scores := Normalized(raw.scores))
  }

  // ---- the loops ---------------------------------------------------------

  method PowerOfDecay(base: int, dist: nat) returns (r: int)
    ensures r == DecayPow(base, dist)
  {
    r := S;
    for i := 0 to dist
      invariant r == DecayPow(base, i)
    {
      r := FpMul(r, base);
    }
  }

  predicate Found(net: Network, a: nat, recipient: nat) {
    recipient in Edges(net, a) && Carries(a, recipient, Edges(net, a)[recipient])
  }

  /** The inner loop over the targets of one row. */
  method ScanTargets(cfg: Cfg, a: nat, edges: map<nat, int>, targets: seq<nat>, recipient: nat, ghost weights: seq<int>)
    returns (total: int, toRecipient: Option<int>)
    requires |weights| == |targets|
    requires forall i :: 0 <= i < |targets| ==>
      targets[i] in edges && weights[i] == Weight(cfg, a, targets[i], edges[targets[i]])
    ensures total == Sum(weights)
    ensures toRecipient.Some? ==> recipient in edges && Carries(a, recipient, edges[recipient])
    ensures toRecipient.Some? ==> toRecipient.value == Weight(cfg, a, recipient, edges[recipient])
    ensures toRecipient.None? ==> recipient !in targets || !Carries(a, recipient, edges[recipient])
  {
    total, toRecipient := 0, None;
    for i := 0 to |targets|
      invariant total == Sum(weights[..i])
      invariant toRecipient.Some? ==> recipient in edges && Carries(a, recipient, edges[recipient])
      invariant toRecipient.Some? ==> toRecipient.value == Weight(cfg, a, recipient, edges[recipient])
      invariant toRecipient.None? ==> recipient !in targets[..i] || !Carries(a, recipient, edges[recipient])
    {
      var target := targets[i];
      SumPrefix(weights, i + 1);
      if Carries(a, target, edges[target]) {
        var w := Weight(cfg, a, target, edges[target]);
        total := total + w;
        if target == recipient { toRecipient := Some(w); }
      }
    }
    assert weights[..|targets|] == weights && targets[..|targets|] == targets;
  }

  /** The scan of one row: its total, and the weight toward the recipient if the edge carries. */
  method ScanRow(cfg: Cfg, net: Network, a: nat, recipient: nat) returns (total: int, toRecipient: Option<int>)
    ensures total == Total(Row(cfg, net, a))
    ensures toRecipient == if Found(net, a, recipient) then Some(Row(cfg, net, a)[recipient]) else None
  {
    var targets := AscendingNats(Edges(net, a).Keys);
    AscendingNatsMembers(Edges(net, a).Keys);
    TotalAlong(Row(cfg, net, a), targets);
    total, toRecipient := ScanTargets(cfg, a, Edges(net, a), targets, recipient, Along(Row(cfg, net, a), targets));
  }

  /** The score one attester adds to a recipient. */
  method Attest(cfg: Cfg, net: Network, hops: Hopcounts, current: map<nat, int>, a: nat, recipient: nat)
    returns (added: int)
    requires a in current
    ensures added == Contribution(cfg, net, hops, current, a, recipient)
  {
    var total, toRecipient := ScanRow(cfg, net, a, recipient);
    if total == 0 || toRecipient.None? { return 0; }
    var decay := S;
    if hops.Some? {
      decay := 0;
      if a in hops.value { decay := PowerOfDecay(cfg.trustDecay, hops.value[a]); }
    }
    var ratio := FpDiv(Boosted(cfg, a, toRecipient.value), total);
    var contribution := FpMul(FpMul(current[a], ratio), decay);
    added := FpMul(cfg.damping, contribution);
  }

  ghost predicate AreFlows(cfg: Cfg, net: Network, hops: Hopcounts, current: map<nat, int>, recipient: nat,
                           nodes: seq<nat>, flows: seq<int>) {
    |flows| == |nodes| &&
      forall i :: 0 <= i < |nodes| ==>
        nodes[i] in current && flows[i] == Contribution(cfg, net, hops, current, nodes[i], recipient)
  }

  /** The inner loop over the attesters of one recipient. */
  method AddAttesters(cfg: Cfg, net: Network, hops: Hopcounts, current: map<nat, int>, recipient: nat, teleport: int,
                      nodes: seq<nat>, ghost flows: seq<int>)
    returns (score: int)
    requires AreFlows(cfg, net, hops, current, recipient, nodes, flows)
    ensures score == teleport + Sum(flows)
  {
    score := teleport;
    for i := 0 to |nodes|
      invariant score == teleport + Sum(flows[..i])
    {
      SumPrefix(flows, i + 1);
      var added := Attest(cfg, net, hops, current, nodes[i], recipient);
      score := score + added;
    }
    assert flows[..|nodes|] == flows;
  }

  method Score(cfg: Cfg, net: Network, hops: Hopcounts, initial: map<nat, int>, current: map<nat, int>, recipient: nat)
    returns (score: int)
    requires initial.Keys == current.Keys == net.nodes && recipient in net.nodes
    ensures score == NewScore(cfg, net, hops, initial, current, recipient)
  {
    var teleport := FpMul(S - cfg.damping, initial[recipient]);
    if !Reachable(hops, recipient) { return teleport; }
    var nodes := AscendingNats(net.nodes);
    ghost var flows := InflowsAlong(cfg, net, hops, current, recipient, nodes);
    score := AddAttesters(cfg, net, hops, current, recipient, teleport, nodes, flows);
  }

  lemma InflowsAlong(cfg: Cfg, net: Network, hops: Hopcounts, current: map<nat, int>, recipient: nat, nodes: seq<nat>)
    returns (flows: seq<int>)
    requires nodes == AscendingNats(net.nodes) && net.nodes <= current.Keys
    ensures AreFlows(cfg, net, hops, current, recipient, nodes, flows)
    ensures Sum(flows) == Total(Inflows(cfg, net, hops, current, recipient))
  {
    var inflows := Inflows(cfg, net, hops, current, recipient);
    assert inflows.Keys == net.nodes;
    TotalAscending(inflows, nodes);
    flows := Along(inflows, nodes);
  }

  /** The running maximum of the changes seen so far. */
  ghost predicate Largest(hops: Hopcounts, current: map<nat, int>, next: map<nat, int>, maxDelta: nat) {
    && (forall v :: v in next && Reachable(hops, v) ==> Abs(next[v] - Get(current, v)) <= maxDelta)
    && (maxDelta == 0 || exists v :: v in next && Reachable(hops, v) && Abs(next[v] - Get(current, v)) == maxDelta)
  }

  function Larger(hops: Hopcounts, current: map<nat, int>, v: nat, score: int, maxDelta: nat): nat
  {
    if Reachable(hops, v) && Abs(score - Get(current, v)) > maxDelta then Abs(score - Get(current, v)) else maxDelta
  }

  lemma LargestExtends(hops: Hopcounts, current: map<nat, int>, next: map<nat, int>, maxDelta: nat, v: nat, score: int)
    requires Largest(hops, current, next, maxDelta) && v !in next
    ensures Largest(hops, current, next[v := score], Larger(hops, current, v, score, maxDelta))
  {
    var wider, larger := next[v := score], Larger(hops, current, v, score, maxDelta);
    if larger == maxDelta && maxDelta != 0 {
      var u :| u in next && Reachable(hops, u) && Abs(next[u] - Get(current, u)) == maxDelta;
      assert u in wider && wider[u] == next[u];
    } else if larger != maxDelta {
      assert v in wider && Abs(wider[v] - Get(current, v)) == larger;
    }
  }

  /** The maximum is below the tolerance exactly when every change is. */
  lemma LargestSettles(cfg: Cfg, net: Network, hops: Hopcounts, current: map<nat, int>, next: map<nat, int>,
                       maxDelta: nat)
    requires Largest(hops, current, next, maxDelta) && next.Keys == net.nodes
    ensures Settled(cfg, net, hops, current, next) <==> maxDelta < cfg.tolerance
  {
    if maxDelta != 0 && Settled(cfg, net, hops, current, next) {
      var u :| u in next && Reachable(hops, u) && Abs(next[u] - Get(current, u)) == maxDelta;
      assert u in net.nodes;
    }
  }

  /** The new scores of the nodes handled so far. */
  ghost predicate PartialStep(cfg: Cfg, net: Network, hops: Hopcounts, initial: map<nat, int>, current: map<nat, int>,
                              next: map<nat, int>, nodes: seq<nat>) {
    next.Keys == (set v | v in nodes) && forall v :: v in next ==>
      next[v] == NewScore(cfg, net, hops, initial, current, v)
  }

  lemma PartialStepSnoc(cfg: Cfg, net: Network, hops: Hopcounts, initial: map<nat, int>, current: map<nat, int>,
                        next: map<nat, int>, nodes: seq<nat>, i: nat)
    requires i < |nodes| && PartialStep(cfg, net, hops, initial, current, next, nodes[..i])
    ensures PartialStep(cfg, net, hops, initial, current,
      next[nodes[i] := NewScore(cfg, net, hops, initial, current, nodes[i])], nodes[..i + 1])
  {
    TakeOneMore(nodes, i);
  }

  method PassOver(cfg: Cfg, net: Network, hops: Hopcounts, initial: map<nat, int>, current: map<nat, int>,
                  nodes: seq<nat>)
    returns (next: map<nat, int>, maxDelta: nat)
    requires initial.Keys == current.Keys == net.nodes
    requires Distinct(nodes) && forall i :: 0 <= i < |nodes| ==> nodes[i] in net.nodes
    ensures PartialStep(cfg, net, hops, initial, current, next, nodes)
    ensures Largest(hops, current, next, maxDelta)
  {
    next, maxDelta := map[], 0;
    for i := 0 to |nodes|
      invariant PartialStep(cfg, net, hops, initial, current, next, nodes[..i])
      invariant Largest(hops, current, next, maxDelta)
    {
      var score := Score(cfg, net, hops, initial, current, nodes[i]);
      LargestExtends(hops, current, next, maxDelta, nodes[i], score);
      PartialStepSnoc(cfg, net, hops, initial, current, next, nodes, i);
      maxDelta := Larger(hops, current, nodes[i], score, maxDelta);
      next := next[nodes[i] := score];
    }
    assert nodes[..|nodes|] == nodes;
  }

  lemma PartialStepDone(cfg: Cfg, net: Network, hops: Hopcounts, initial: map<nat, int>, current: map<nat, int>,
                        next: map<nat, int>, nodes: seq<nat>)
    requires PartialStep(cfg, net, hops, initial, current, next, nodes) && forall v :: v in nodes <==> v in net.nodes
    ensures next == Step(cfg, net, hops, initial, current)
  {
    assert next.Keys == net.nodes;
  }

  /** One pass over the recipients: the new scores and the largest change of a reachable one. */
  method Pass(cfg: Cfg, net: Network, hops: Hopcounts, initial: map<nat, int>, current: map<nat, int>)
    returns (next: map<nat, int>, maxDelta: nat)
    requires initial.Keys == current.Keys == net.nodes
    ensures next == Step(cfg, net, hops, initial, current)
    ensures Settled(cfg, net, hops, current, next) <==> maxDelta < cfg.tolerance
  {
    var nodes := AscendingNats(net.nodes);
    next, maxDelta := PassOver(cfg, net, hops, initial, current, nodes);
    AscendingNatsMembers(net.nodes);
    PartialStepDone(cfg, net, hops, initial, current, next, nodes);
    LargestSettles(cfg, net, hops, current, next, maxDelta);
  }

  method Iterate(cfg: Cfg, net: Network, hops: Hopcounts, initial: map<nat, int>) returns (r: Rank)
    requires initial.Keys == net.nodes
    ensures r == Run(cfg, net, hops, initial, initial, 0)
  {
    var current := initial;
    var it: nat := 0;
    while it < cfg.maxIterations
      invariant current.Keys == net.nodes
      invariant Run(cfg, net, hops, initial, initial, 0) == Run(cfg, net, hops, initial, current, it)
    {
      var next, maxDelta := Pass(cfg, net, hops, initial, current);
      if maxDelta < cfg.tolerance { return Rank(next, it + 1, Some(true)); }
      current := next;
      it := it + 1;
    }
    r := Rank(current, cfg.maxIterations, Some(false));
  }

  /** `calculate`. */
  method Calculate(cfg: Cfg, net: Network) returns (r: Rank)
    ensures r == Calculated(cfg, net)
  {
    if net.nodes == {} { return Rank(map[], 0, None); }
    var hops: Hopcounts := None;
    if cfg.seeds != {} {
      var dist := Bfs.BfsDistances(Links(net), cfg.seeds);
      hops := Some(dist);
    }
    var initial := Initial(cfg, net, if hops.None? then map[] else hops.value);
    var raw := Iterate(cfg, net, hops, initial);
    RunKeys(cfg, net, hops, initial, initial, 0);
    var total := AddTotal(raw.scores);
    r := raw;
    if total != 0 { r := raw.(scores := map v | v in raw.scores :: FpDiv(raw.scores[v], total)); }
  }

  lemma {:induction false} RunKeys(cfg: Cfg, net: Network, hops: Hopcounts, initial: map<nat, int>,
                                   current: map<nat, int>, it: nat)
    requires current.Keys == net.nodes
    ensures Run(cfg, net, hops, initial, current, it).scores.Keys == net.nodes
    decreases cfg.maxIterations - it
  {
    if it < cfg.maxIterations {
      var next := Step(cfg, net, hops, initial, current);
      RunKeys(cfg, net, hops, initial, next, it + 1);
    }
  }
}
