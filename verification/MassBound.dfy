/** Standing never exceeds the fixed-point scale: the executable invariant of the rank
    (research/scoring-sim/tg.py; asserted at run time in crates/pagerank-core/src/pagerank.rs). */
module MassBound {
  import opened Wrappers
  import opened Totals
  import opened Ordering
  import opened FixedPoint
  import opened PageRank
  import Bfs
  import Graph

  ghost predicate Fractions(cfg: Cfg) {
    0 <= cfg.damping <= S && 0 <= cfg.trustShare <= S && 0 <= cfg.trustDecay <= S && cfg.trustMultiplier >= 0
  }

  ghost predicate NonNegativeWeights(net: Network) {
    forall a, t :: a in net.outgoing && t in net.outgoing[a] ==> net.outgoing[a][t] >= 0
  }

  /** A boost that is applied outside its row, to some seed, is a fraction too. */
  ghost predicate Contained(cfg: Cfg) { !cfg.fixMultiplier && cfg.seeds != {} ==> cfg.trustMultiplier <= S }

  ghost predicate Sound(cfg: Cfg, net: Network) { Fractions(cfg) && NonNegativeWeights(net) && Contained(cfg) }

  ghost predicate WithinScale(scores: map<nat, int>) {
    (forall v :: v in scores ==> scores[v] >= 0) && Total(scores) <= S
  }

  // ---- the initial scores ------------------------------------------------

  ghost function Indicator(nodes: set<nat>, chosen: set<nat>, c: int): map<nat, int>
  {
    map v | v in nodes :: if v in chosen then c else 0
  }

  lemma {:induction false} TotalIndicator(nodes: set<nat>, chosen: set<nat>, c: int)
    ensures Total(Indicator(nodes, chosen, c)) == |nodes * chosen| * c
    decreases nodes
  {
    var m := Indicator(nodes, chosen, c);
    if nodes == {} {
      assert m == map[];
      assert nodes * chosen == {};
    } else {
      var v :| v in nodes;
      var rest := nodes - {v};
      TotalIndicator(rest, chosen, c);
      assert m - {v} == Indicator(rest, chosen, c);
      TotalRemove(m, v);
      if v in chosen {
        assert nodes * chosen == rest * chosen + {v};
        assert (|rest * chosen| + 1) * c == |rest * chosen| * c + c;
      } else {
        assert nodes * chosen == rest * chosen;
      }
    }
  }

  lemma DividedTimes(amount: int, count: nat, members: nat)
    requires amount >= 0 && members <= count
    ensures 0 <= members * Divided(amount, count) <= amount
  {
    if count > 0 {
      FloorTimes(amount, count);
      Scaled(amount / count, members, count);
      assert amount / count >= 0;
    }
  }

  lemma SmallerSubset(a: set<nat>, b: set<nat>)
    requires a <= b
    ensures |a| <= |b|
  {
    if a != {} {
      var x :| x in a;
      SmallerSubset(a - {x}, b - {x});
    }
  }

  lemma UniformWithinScale(net: Network)
    requires net.nodes != {}
    ensures WithinScale(Uniform(net))
  {
    var n := |net.nodes|;
    var c := S / n;
    TotalIndicator(net.nodes, net.nodes, c);
    assert net.nodes * net.nodes == net.nodes;
    assert Uniform(net) == Indicator(net.nodes, net.nodes, c);
    FloorTimes(S, n);
  }

  ghost function Endowment(nodes: set<nat>, seeds: set<nat>, regulars: set<nat>, c: int, d: int): map<nat, int>
  {
    map v | v in nodes :: if v in seeds then c else if v in regulars then d else 0
  }

  /** Two disjoint groups, each sharing an amount equally. */
  lemma EndowmentTotal(nodes: set<nat>, seeds: set<nat>, regulars: set<nat>, c: int, d: int)
    requires seeds !! regulars
    ensures Total(Endowment(nodes, seeds, regulars, c, d)) == |nodes * seeds| * c + |nodes * regulars| * d
  {
    TotalIndicator(nodes, seeds, c);
    TotalIndicator(nodes, regulars, d);
    TotalAdd(Indicator(nodes, seeds, c), Indicator(nodes, regulars, d), Endowment(nodes, seeds, regulars, c, d));
  }

  lemma EndowmentWithinScale(nodes: set<nat>, seeds: set<nat>, regulars: set<nat>, share: int, count: nat)
    requires seeds !! regulars && regulars <= nodes && 0 <= share <= S && |seeds| <= count
    ensures WithinScale(Endowment(nodes, seeds, regulars, Divided(share, count), Divided(S - share, |regulars|)))
  {
    EndowmentTotal(nodes, seeds, regulars, Divided(share, count), Divided(S - share, |regulars|));
    SmallerSubset(nodes * seeds, seeds);
    assert nodes * regulars == regulars;
    DividedTimes(share, count, |nodes * seeds|);
    DividedTimes(S - share, |regulars|, |regulars|);
    DividedNonNegative(share, count);
    DividedNonNegative(S - share, |regulars|);
  }

  lemma InitialWithinScale(cfg: Cfg, net: Network, dist: map<nat, nat>)
    requires Sound(cfg, net)
    ensures WithinScale(Initial(cfg, net, dist))
  {
    var initial := Initial(cfg, net, dist);
    if net.nodes == {} {
      assert initial == map[];
    } else if EffectiveSeeds(cfg, net).None? {
      UniformWithinScale(net);
    } else {
      var seeds := EffectiveSeeds(cfg, net).value;
      var count := if cfg.f5d || cfg.fixSeedDivisor then |seeds| else |cfg.seeds|;
      var regulars := Regulars(cfg, net, seeds, dist);
      EndowmentWithinScale(net.nodes, seeds, regulars, cfg.trustShare, count);
      assert initial == Endowment(net.nodes, seeds, regulars,
        Divided(cfg.trustShare, count), Divided(S - cfg.trustShare, |regulars|));
    }
  }

  lemma DividedNonNegative(amount: int, count: nat)
    requires amount >= 0
    ensures Divided(amount, count) >= 0
  {
  }

  // ---- the outflow of one attester ---------------------------------------

  lemma RowNonNegative(cfg: Cfg, net: Network, a: nat)
    requires Sound(cfg, net)
    ensures forall t :: t in Row(cfg, net, a) ==> Row(cfg, net, a)[t] >= 0
  {
    forall t | t in Row(cfg, net, a) ensures Row(cfg, net, a)[t] >= 0 {
      FpMulNonNegative(Edges(net, a)[t], cfg.trustMultiplier) by { assert Edges(net, a)[t] >= 0; }
    }
  }

  /** Distinct keys pick at most the total. */
  lemma {:induction false} PickedAtMostTotal(m: map<nat, int>, keys: seq<nat>)
    requires (forall k :: k in m ==> m[k] >= 0) && Distinct(keys)
    ensures Sum(seq(|keys|, i requires 0 <= i < |keys| => Get(m, keys[i]))) <= Total(m)
    decreases |keys|
  {
    var picked := seq(|keys|, i requires 0 <= i < |keys| => Get(m, keys[i]));
    if keys == [] {
      TotalNonNegative(m);
    } else {
      var n := |keys| - 1;
      var rest := m - {keys[n]};
      PickedAtMostTotal(rest, keys[..n]);
      if keys[n] in m { TotalRemove(m, keys[n]); } else { assert rest == m; }
      var front := seq(n, i requires 0 <= i < n => Get(rest, keys[..n][i]));
      assert picked[..n] == front;
    }
  }

  /** What attester `a` sends to each recipient in turn. */
  ghost function Outflow(cfg: Cfg, net: Network, hops: Hopcounts, current: map<nat, int>, a: nat,
                         nodes: seq<nat>): seq<int>
  {
    seq(|nodes|, i requires 0 <= i < |nodes| => Contribution(cfg, net, hops, current, a, nodes[i]))
  }

  lemma {:induction false} DecayPowAtMostOne(base: int, dist: nat)
    requires 0 <= base <= S
    ensures 0 <= DecayPow(base, dist) <= S
  {
    if dist > 0 {
      DecayPowAtMostOne(base, dist - 1);
      FpMulShrinks(DecayPow(base, dist - 1), base);
    }
  }

  /** A boost of at most one does not raise a weight. */
  lemma BoostedAtMost(cfg: Cfg, a: nat, w: int)
    requires cfg.trustMultiplier >= 0 && Contained(cfg) && w >= 0
    ensures 0 <= Boosted(cfg, a, w) <= w
  {
    if !cfg.fixMultiplier && a in cfg.seeds { FpMulShrinks(w, cfg.trustMultiplier); }
  }

  lemma BoostedRatio(cfg: Cfg, a: nat, w: int, rowTotal: int)
    requires cfg.trustMultiplier >= 0 && Contained(cfg) && w >= 0 && rowTotal > 0
    ensures 0 <= FpDiv(Boosted(cfg, a, w), rowTotal) <= w * S / rowTotal
  {
    BoostedAtMost(cfg, a, w);
    Scaled(S, 0, Boosted(cfg, a, w));
    Scaled(S, Boosted(cfg, a, w), w);
    DivisionMonotone(0, Boosted(cfg, a, w) * S, rowTotal);
    DivisionMonotone(Boosted(cfg, a, w) * S, w * S, rowTotal);
  }

  lemma FpMulMonotone(score: int, a: int, b: int)
    requires score >= 0 && 0 <= a <= b
    ensures 0 <= FpMul(score, a) <= FpMul(score, b)
  {
    FpMulNonNegative(score, a);
    Scaled(score, a, b);
    DivisionMonotone(score * a, score * b, S);
  }

  lemma DecayIsFraction(cfg: Cfg, hops: Hopcounts, a: nat)
    requires 0 <= cfg.trustDecay <= S
    ensures 0 <= Decay(cfg, hops, a) <= S
  {
    if hops.Some? && a in hops.value { DecayPowAtMostOne(cfg.trustDecay, hops.value[a]); }
  }

  /** One damped, decayed flow, against the undecayed part it comes from. */
  lemma FlowBounds(cfg: Cfg, hops: Hopcounts, net: Network, score: int, a: nat, w: int, rowTotal: int)
    requires Sound(cfg, net) && score >= 0 && w >= 0 && rowTotal > 0
    ensures 0 <= S * Flow(cfg, hops, score, a, w, rowTotal) <= cfg.damping * FpMul(score, w * S / rowTotal)
  {
    var ratio := FpDiv(Boosted(cfg, a, w), rowTotal);
    BoostedRatio(cfg, a, w, rowTotal);
    FpMulMonotone(score, ratio, w * S / rowTotal);
    DecayIsFraction(cfg, hops, a);
    var part := FpMul(score, ratio);
    FpMulShrinks(part, Decay(cfg, hops, a));
    var decayed := FpMul(part, Decay(cfg, hops, a));
    FpMulNonNegative(cfg.damping, decayed);
    FpMulBounds(cfg.damping, decayed);
    Scaled(cfg.damping, decayed, FpMul(score, w * S / rowTotal));
  }

  lemma RowTotalNonNegative(cfg: Cfg, net: Network, a: nat)
    requires Sound(cfg, net)
    ensures Total(Row(cfg, net, a)) >= 0
  {
    RowNonNegative(cfg, net, a);
    TotalNonNegative(Row(cfg, net, a));
  }

  lemma ContributionBounds(cfg: Cfg, net: Network, hops: Hopcounts, current: map<nat, int>, a: nat, r: nat, whole: int)
    requires Sound(cfg, net) && Get(current, a) >= 0 && whole == Total(Row(cfg, net, a)) > 0
    ensures 0 <= S * Contribution(cfg, net, hops, current, a, r)
      <= cfg.damping * FpMul(Get(current, a), Get(Row(cfg, net, a), r) * S / whole)
  {
    if Found(net, a, r) {
      RowNonNegative(cfg, net, a);
      var w := Row(cfg, net, a)[r];
      FlowBounds(cfg, hops, net, Get(current, a), a, w, whole);
      assert Contribution(cfg, net, hops, current, a, r) == Flow(cfg, hops, Get(current, a), a, w, whole);
    } else {
      assert Get(Row(cfg, net, a), r) == 0;
      NoShare(Get(current, a), whole);
    }
  }

  lemma NoShare(score: int, rowTotal: int)
    requires rowTotal > 0
    ensures FpMul(score, 0 * S / rowTotal) == 0
  {
    assert 0 * S / rowTotal == 0;
    FpMulZero(score, 0);
  }

  /** An attester passes on at most the damped part of its own score. */
  lemma OutflowBound(cfg: Cfg, net: Network, hops: Hopcounts, current: map<nat, int>, a: nat, nodes: seq<nat>)
    requires Sound(cfg, net) && Get(current, a) >= 0 && Distinct(nodes)
    ensures forall i :: 0 <= i < |nodes| ==> Outflow(cfg, net, hops, current, a, nodes)[i] >= 0
    ensures S * Sum(Outflow(cfg, net, hops, current, a, nodes)) <= cfg.damping * Get(current, a)
  {
    var n, score, row := |nodes|, Get(current, a), Row(cfg, net, a);
    var out := Outflow(cfg, net, hops, current, a, nodes);
    Scaled(cfg.damping, 0, score);
    RowNonNegative(cfg, net, a);
    RowTotalNonNegative(cfg, net, a);
    if Total(row) == 0 {
      SumConstant(out, 0);
    } else {
      var parts := seq(n, i requires 0 <= i < n => Get(row, nodes[i]));
      PickedAtMostTotal(row, nodes);
      var ratios := Ratios(parts, Total(row));
      RatiosAtMostOne(parts, Total(row));
      var products := Products(score, ratios);
      SplitAtMost(score, ratios);
      var scaled := seq(n, i requires 0 <= i < n => S * out[i]);
      var damped := seq(n, i requires 0 <= i < n => cfg.damping * products[i]);
      forall i | 0 <= i < n ensures 0 <= scaled[i] <= damped[i] && out[i] >= 0 {
        ContributionBounds(cfg, net, hops, current, a, nodes[i], Total(row));
      }
      SumMonotone(scaled, damped);
      SumScale(out, S, scaled);
      SumScale(products, cfg.damping, damped);
      Scaled(cfg.damping, Sum(products), score);
    }
  }

  // ---- the bound on every iteration --------------------------------------

  /** Row `j` is what the `j`-th node sends out; column `i` is what the `i`-th node takes in. */
  ghost function Flows(cfg: Cfg, net: Network, hops: Hopcounts, current: map<nat, int>,
                       nodes: seq<nat>): (r: seq<seq<int>>)
    ensures |r| == |nodes| && Rectangular(r, |nodes|)
  {
    seq(|nodes|, j requires 0 <= j < |nodes| => Outflow(cfg, net, hops, current, nodes[j], nodes))
  }

  lemma InflowIsColumn(cfg: Cfg, net: Network, hops: Hopcounts, current: map<nat, int>, i: nat)
    requires i < |AscendingNats(net.nodes)| && net.nodes <= current.Keys
    ensures var nodes := AscendingNats(net.nodes);
      Total(Inflows(cfg, net, hops, current, nodes[i])) == ColumnSums(Flows(cfg, net, hops, current, nodes), |nodes|)[i]
  {
    var nodes := AscendingNats(net.nodes);
    var flows := InflowsAlong(cfg, net, hops, current, nodes[i], nodes);
    assert flows == Column(Flows(cfg, net, hops, current, nodes), |nodes|, i);
  }

  lemma RowSumBounds(cfg: Cfg, net: Network, hops: Hopcounts, current: map<nat, int>, nodes: seq<nat>, scores: seq<int>)
    requires Sound(cfg, net) && Distinct(nodes) && |scores| == |nodes|
    requires forall j :: 0 <= j < |nodes| ==> scores[j] == Get(current, nodes[j]) >= 0
    ensures Dominated(RowSums(Flows(cfg, net, hops, current, nodes)), scores, scores, S, cfg.damping, 0)
  {
    var flows := Flows(cfg, net, hops, current, nodes);
    forall j | 0 <= j < |nodes| ensures S * RowSums(flows)[j] <= cfg.damping * scores[j] + 0 * scores[j] {
      OutflowBound(cfg, net, hops, current, nodes[j], nodes);
    }
  }

  lemma FlowsBound(cfg: Cfg, net: Network, hops: Hopcounts, current: map<nat, int>, nodes: seq<nat>)
    requires Sound(cfg, net) && WithinScale(current) && current.Keys == net.nodes && nodes == AscendingNats(net.nodes)
    ensures S * Sum(RowSums(Flows(cfg, net, hops, current, nodes))) <= cfg.damping * Total(current)
  {
    TotalAscending(current, nodes);
    var scores := Along(current, nodes);
    RowSumBounds(cfg, net, hops, current, nodes, scores);
    SumDominated(RowSums(Flows(cfg, net, hops, current, nodes)), scores, scores, S, cfg.damping, 0);
  }

  lemma ColumnNonNegative(cfg: Cfg, net: Network, hops: Hopcounts, current: map<nat, int>, nodes: seq<nat>, i: nat)
    requires Sound(cfg, net) && WithinScale(current) && Distinct(nodes) && i < |nodes|
    ensures ColumnSums(Flows(cfg, net, hops, current, nodes), |nodes|)[i] >= 0
  {
    var column := Column(Flows(cfg, net, hops, current, nodes), |nodes|, i);
    forall j | 0 <= j < |nodes| ensures column[j] >= 0 {
      OutflowBound(cfg, net, hops, current, nodes[j], nodes);
      assert column[j] == Outflow(cfg, net, hops, current, nodes[j], nodes)[i];
    }
    PrefixWithin(column, 0);
  }

  lemma NewScoreBounds(cfg: Cfg, net: Network, hops: Hopcounts, initial: map<nat, int>, current: map<nat, int>, i: nat)
    requires Sound(cfg, net) && WithinScale(initial) && WithinScale(current)
      && initial.Keys == current.Keys == net.nodes
    requires i < |AscendingNats(net.nodes)|
    ensures var nodes := AscendingNats(net.nodes);
      0 <= S * NewScore(cfg, net, hops, initial, current, nodes[i])
        <= (S - cfg.damping) * initial[nodes[i]] + S * ColumnSums(Flows(cfg, net, hops, current, nodes), |nodes|)[i]
  {
    var nodes := AscendingNats(net.nodes);
    InflowIsColumn(cfg, net, hops, current, i);
    ColumnNonNegative(cfg, net, hops, current, nodes, i);
    FpMulNonNegative(S - cfg.damping, initial[nodes[i]]);
    FpMulBounds(S - cfg.damping, initial[nodes[i]]);
  }

  lemma MassArithmetic(damping: int, initialTotal: int, currentTotal: int, flow: int, stepTotal: int)
    requires 0 <= damping <= S && initialTotal <= S && currentTotal <= S
    requires S * flow <= damping * currentTotal
    requires S * stepTotal <= (S - damping) * initialTotal + S * flow
    ensures stepTotal <= S
  {
    Scaled(damping, currentTotal, S);
    Scaled(S - damping, initialTotal, S);
    assert (S - damping) * S + damping * S == S * S;
  }

  lemma StepBounds(cfg: Cfg, net: Network, hops: Hopcounts, initial: map<nat, int>, current: map<nat, int>,
                   nodes: seq<nat>)
    requires Sound(cfg, net) && WithinScale(initial) && WithinScale(current)
      && initial.Keys == current.Keys == net.nodes
    requires nodes == AscendingNats(net.nodes)
    ensures Dominated(Along(Step(cfg, net, hops, initial, current), nodes), Along(initial, nodes),
                      ColumnSums(Flows(cfg, net, hops, current, nodes), |nodes|), S, S - cfg.damping, S)
    ensures forall i :: 0 <= i < |nodes| ==> Step(cfg, net, hops, initial, current)[nodes[i]] >= 0
  {
    forall i | 0 <= i < |nodes|
      ensures 0 <= S * Step(cfg, net, hops, initial, current)[nodes[i]]
        <= (S - cfg.damping) * initial[nodes[i]] + S * ColumnSums(Flows(cfg, net, hops, current, nodes), |nodes|)[i]
    {
      NewScoreBounds(cfg, net, hops, initial, current, i);
    }
  }

  /** What arrives is what was sent out. */
  lemma ColumnsBound(cfg: Cfg, net: Network, hops: Hopcounts, current: map<nat, int>, nodes: seq<nat>)
    requires Sound(cfg, net) && WithinScale(current) && current.Keys == net.nodes && nodes == AscendingNats(net.nodes)
    ensures S * Sum(ColumnSums(Flows(cfg, net, hops, current, nodes), |nodes|)) <= cfg.damping * Total(current)
  {
    SumSwap(Flows(cfg, net, hops, current, nodes), |nodes|);
    FlowsBound(cfg, net, hops, current, nodes);
  }

  /** `next` is at most the damped scores that flowed in, on top of the undamped share of `initial`. */
  ghost predicate Damped(initial: map<nat, int>, next: map<nat, int>, columns: seq<int>, nodes: seq<nat>, damping: int,
                         currentTotal: int) {
    && 0 <= damping <= S && Total(initial) <= S && currentTotal <= S && S * Sum(columns) <= damping * currentTotal
    && initial.Keys == next.Keys && nodes == AscendingNats(initial.Keys)
    && Dominated(Along(next, nodes), Along(initial, nodes), columns, S, S - damping, S)
    && forall i :: 0 <= i < |nodes| ==> next[nodes[i]] >= 0
  }

  lemma DampedWithinScale(initial: map<nat, int>, next: map<nat, int>, columns: seq<int>, nodes: seq<nat>, damping: int,
                          currentTotal: int)
    requires Damped(initial, next, columns, nodes, damping, currentTotal)
    ensures WithinScale(next)
  {
    TotalAscending(next, nodes);
    TotalAscending(initial, nodes);
    SumDominated(Along(next, nodes), Along(initial, nodes), columns, S, S - damping, S);
    MassArithmetic(damping, Total(initial), currentTotal, Sum(columns), Total(next));
    AscendingNatsMembers(next.Keys);
    forall v | v in next ensures next[v] >= 0 {
      assert v in nodes;
    }
  }

  lemma StepDamped(cfg: Cfg, net: Network, hops: Hopcounts, initial: map<nat, int>, current: map<nat, int>)
    returns (columns: seq<int>, nodes: seq<nat>)
    requires Sound(cfg, net) && WithinScale(initial) && WithinScale(current)
      && initial.Keys == current.Keys == net.nodes
    ensures Damped(initial, Step(cfg, net, hops, initial, current), columns, nodes, cfg.damping, Total(current))
  {
    nodes := AscendingNats(net.nodes);
    columns := ColumnSums(Flows(cfg, net, hops, current, nodes), |nodes|);
    StepBounds(cfg, net, hops, initial, current, nodes);
    ColumnsBound(cfg, net, hops, current, nodes);
  }

  /** One step never lets the total standing pass the scale, whatever truncation does. */
  lemma StepWithinScale(cfg: Cfg, net: Network, hops: Hopcounts, initial: map<nat, int>, current: map<nat, int>)
    requires Sound(cfg, net) && WithinScale(initial) && WithinScale(current)
      && initial.Keys == current.Keys == net.nodes
    ensures WithinScale(Step(cfg, net, hops, initial, current))
  {
    var columns, nodes := StepDamped(cfg, net, hops, initial, current);
    DampedWithinScale(initial, Step(cfg, net, hops, initial, current), columns, nodes, cfg.damping, Total(current));
  }

  lemma {:induction false} RunWithinScale(cfg: Cfg, net: Network, hops: Hopcounts, initial: map<nat, int>,
                                          current: map<nat, int>, it: nat)
    requires Sound(cfg, net) && WithinScale(initial) && WithinScale(current)
      && initial.Keys == current.Keys == net.nodes
    ensures WithinScale(Run(cfg, net, hops, initial, current, it).scores)
    decreases cfg.maxIterations - it
  {
    if it < cfg.maxIterations {
      StepWithinScale(cfg, net, hops, initial, current);
      RunWithinScale(cfg, net, hops, initial, Step(cfg, net, hops, initial, current), it + 1);
    }
  }

  /** The scores every run starts from. */
  ghost function Start(cfg: Cfg, net: Network): (r: map<nat, int>)
    ensures r.Keys == net.nodes
  {
    var hops := HopsFrom(net, cfg.seeds);
    Initial(cfg, net, if hops.None? then map[] else hops.value)
  }

  lemma StartWithinScale(cfg: Cfg, net: Network)
    requires Sound(cfg, net)
    ensures WithinScale(Start(cfg, net))
  {
    var hops := HopsFrom(net, cfg.seeds);
    InitialWithinScale(cfg, net, if hops.None? then map[] else hops.value);
  }

  lemma {:induction false} AfterWithinScale(cfg: Cfg, net: Network, hops: Hopcounts, initial: map<nat, int>,
                                            current: map<nat, int>, k: nat)
    requires Sound(cfg, net) && WithinScale(initial) && WithinScale(current)
      && initial.Keys == current.Keys == net.nodes
    ensures WithinScale(After(cfg, net, hops, initial, current, k))
    decreases k
  {
    if k > 0 {
      StepWithinScale(cfg, net, hops, initial, current);
      AfterWithinScale(cfg, net, hops, initial, Step(cfg, net, hops, initial, current), k - 1);
    }
  }

  /** After `k` steps the scores are non-negative and add up to at most the scale. */
  ghost predicate KeepsScale(cfg: Cfg, net: Network, k: nat) {
    WithinScale(After(cfg, net, HopsFrom(net, cfg.seeds), Start(cfg, net), Start(cfg, net), k))
  }

  /** The bound holds in every iteration. */
  lemma EveryIterationWithinScale(cfg: Cfg, net: Network, k: nat)
    requires Sound(cfg, net)
    ensures KeepsScale(cfg, net, k)
  {
    StartWithinScale(cfg, net);
    AfterWithinScale(cfg, net, HopsFrom(net, cfg.seeds), Start(cfg, net), Start(cfg, net), k);
  }

  /** A normalised non-zero result lies within one unit per account below the scale. */
  lemma NormalizedTotal(scores: map<nat, int>)
    requires Total(scores) > 0
    ensures S - |scores.Keys| < Total(Normalized(scores)) <= S
  {
    var nodes := AscendingNats(scores.Keys);
    NormalizedAlong(scores, Normalized(scores), nodes);
    RatiosAlmostOne(Along(scores, nodes), Total(scores));
  }

  lemma NormalizedAlong(scores: map<nat, int>, normal: map<nat, int>, nodes: seq<nat>)
    requires Total(scores) > 0 && nodes == AscendingNats(scores.Keys) && normal == Normalized(scores)
    ensures Sum(Along(scores, nodes)) == Total(scores)
    ensures Total(normal) == Sum(Ratios(Along(scores, nodes), Total(scores)))
  {
    TotalAscending(scores, nodes);
    TotalAscending(normal, nodes);
    assert Along(normal, nodes) == Ratios(Along(scores, nodes), Total(scores));
  }

  /** The result: within the scale, and all of it but less than one unit per account unless it is all zero. */
  lemma ResultWithinScale(cfg: Cfg, net: Network)
    requires Sound(cfg, net) && net.nodes != {}
    ensures var total := Total(Calculated(cfg, net).scores); total == 0 || S - |net.nodes| < total <= S
  {
    var hops, initial := HopsFrom(net, cfg.seeds), Start(cfg, net);
    StartWithinScale(cfg, net);
    RunWithinScale(cfg, net, hops, initial, initial, 0);
    RunKeys(cfg, net, hops, initial, initial, 0);
    var raw := RawRank(cfg, net).scores;
    TotalNonNegative(raw);
    if Total(raw) != 0 { NormalizedTotal(raw); }
  }

  // ---- the bound needs the multiplier to be a fraction -----------------------

  function Boosting(m: nat): Cfg { Cfg(S, 1, 1, m, S, S, {0}, true, false, false, false) }

  /** One seed that vouches for one account. */
  function Pair(): Network { Network({0, 1}, map[0 := map[1 := S]]) }

  lemma TotalOfTwo(m: map<nat, int>)
    requires m.Keys == {0, 1}
    ensures Total(m) == m[0] + m[1]
  {
    TotalRemove(m, 0);
    TotalRemove(m - {0}, 1);
    assert m - {0} - {1} == map[];
  }

  lemma PairDistances()
    ensures var d := Bfs.Distances(Links(Pair()), {0}); 0 in d && d[0] == 0 && 1 in d
  {
    var g := Links(Pair());
    Graph.ClosureIsReachable(g, {0});
    Graph.ReachesSource(g, {0}, 0);
    assert 0 in Graph.Ball(g, {0}, 0);
    Graph.ReachesStep(g, {0}, 0, 1);
  }

  lemma PairRow(m: nat)
    ensures Total(Row(Boosting(m), Pair(), 0)) == S
  {
    var row := Row(Boosting(m), Pair(), 0);
    assert row == map[1 := S];
    TotalRemove(row, 1);
    assert row - {1} == map[];
  }

  lemma BoostedFlow(m: nat, hops: Hopcounts)
    requires hops.Some? && 0 in hops.value && hops.value[0] == 0
    ensures Flow(Boosting(m), hops, S, 0, S, S) == m
  {
  }

  lemma PairStart(m: nat)
    ensures Start(Boosting(m), Pair()) == map[0 := S, 1 := 0]
  {
    PairDistances();
    PairInitial(m, Bfs.Distances(Links(Pair()), {0}));
  }

  lemma PairInitial(m: nat, dist: map<nat, nat>)
    requires 1 in dist
    ensures Initial(Boosting(m), Pair(), dist) == map[0 := S, 1 := 0]
  {
    assert EffectiveSeeds(Boosting(m), Pair()) == Some({0});
    assert Regulars(Boosting(m), Pair(), {0}, dist) == {1};
  }

  /** In one step the seed of the pair hands on `m`. */
  lemma PairStep(m: nat)
    ensures Total(After(Boosting(m), Pair(), HopsFrom(Pair(), {0}),
                        Start(Boosting(m), Pair()), Start(Boosting(m), Pair()), 1)) == m
  {
    var cfg, net, initial := Boosting(m), Pair(), Start(Boosting(m), Pair());
    var hops := HopsFrom(net, {0});
    PairDistances();
    PairStart(m);
    var next := Step(cfg, net, hops, initial, initial);
    assert next.Keys == {0, 1};
    var x, y := Inflows(cfg, net, hops, initial, 0), Inflows(cfg, net, hops, initial, 1);
    TotalOfTwo(x);
    TotalOfTwo(y);
    assert x[0] == 0 && x[1] == 0 && y[1] == 0;
    PairRow(m);
    BoostedFlow(m, hops);
    assert Row(cfg, net, 0)[1] == S;
    assert y[0] == m;
    FpMulZero(S - cfg.damping, initial[0]);
    FpMulZero(S - cfg.damping, initial[1]);
    TotalOfTwo(next);
    assert After(cfg, net, hops, initial, initial, 1) == After(cfg, net, hops, initial, next, 0) == next;
  }

  /** With any larger multiplier one step already creates standing out of nothing. */
  lemma LargerMultiplierBreaksTheBound(m: nat)
    requires m > S
    ensures !KeepsScale(Boosting(m), Pair(), 1)
  {
    PairStep(m);
  }

  /** Configurations of fractions that apply the multiplier `m` outside the row. */
  ghost predicate AppliesOutside(cfg: Cfg, m: nat) {
    Fractions(cfg) && !cfg.fixMultiplier && cfg.trustMultiplier == m
  }

  /** No such configuration exceeds the scale, on any network with non-negative weights, in any iteration. */
  ghost predicate Safe(m: nat) {
    forall cfg, net, k: nat :: AppliesOutside(cfg, m) && NonNegativeWeights(net) ==> KeepsScale(cfg, net, k)
  }

  /** The multipliers that keep the bound are exactly those of at most the scale. */
  lemma SafeMultipliers(m: nat)
    ensures Safe(m) <==> m <= S
  {
    if m <= S {
      forall cfg, net, k: nat | AppliesOutside(cfg, m) && NonNegativeWeights(net) ensures KeepsScale(cfg, net, k) {
        EveryIterationWithinScale(cfg, net, k);
      }
    } else {
      LargerMultiplierBreaksTheBound(m);
      assert AppliesOutside(Boosting(m), m) && NonNegativeWeights(Pair());
      assert !KeepsScale(Boosting(m), Pair(), 1);
    }
  }
}
