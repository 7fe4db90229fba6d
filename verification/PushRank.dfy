/** The production push kernel: crates/pagerank-core/src/pagerank.rs. Row ratios and decays are computed
    once; each iteration pushes from the sources. It computes the same integers as the pull form. */
module PushRank {
  import opened Wrappers
  import opened Totals
  import opened Ordering
  import opened FixedPoint
  import opened Grouping
  import opened PageRank
  import opened DecaySearch
  import Bfs

  datatype Config = Config(
    damping: nat, tolerance: nat, maxIterations: nat, trustShare: nat, trustDecay: nat, seeds: set<nat>)

  /** The same parameters for the pull form: no boost, and only reachable accounts are endowed. */
  function AsPull(c: Config): Cfg
  {
    Cfg(c.damping, c.tolerance, c.maxIterations, S, c.trustShare, c.trustDecay, c.seeds, true, false, false, false)
  }

  /** The accounts that are ranked, seeds included, and the edges that carry. */
  function Ranked(net: Network, c: Config): Network { Network(net.nodes + c.seeds, Carrying(net.outgoing)) }

  predicate EdgesClosed(net: Network) {
    forall a :: a in net.outgoing ==> a in net.nodes && forall t :: t in net.outgoing[a] ==> t in net.nodes
  }

  type Reach = Option<set<nat>>

  predicate Counts(reach: Reach, v: nat) { reach.None? || v in reach.value }

  function ReachOf(hops: Hopcounts): Reach { if hops.None? then None else Some(hops.value.Keys) }

  // ---- the hoisted rows ----------------------------------------------------

  function Pushes(a: nat, row: map<nat, int>, reach: Reach): nat -> bool {
    t => t in row && Carries(a, t, row[t]) && Counts(reach, t)
  }

  /** The reachable targets of a row, in order. */
  function Targets(a: nat, row: map<nat, int>, reach: Reach): seq<nat>
  {
    Filter(Pushes(a, row, reach), AscendingNats(row.Keys))
  }

  lemma TargetsAre(a: nat, row: map<nat, int>, reach: Reach)
    ensures forall t :: t in Targets(a, row, reach) <==> Pushes(a, row, reach)(t)
    ensures Distinct(Targets(a, row, reach))
  {
    AscendingNatsMembers(row.Keys);
    FilterMembers(Pushes(a, row, reach), AscendingNats(row.Keys));
    FilterDistinct(Pushes(a, row, reach), AscendingNats(row.Keys));
  }

  function RatiosOf(row: map<nat, int>, total: int, targets: seq<nat>): seq<(nat, int)>
    requires total != 0 && forall i :: 0 <= i < |targets| ==> targets[i] in row
  {
    seq(|targets|, i requires 0 <= i < |targets| => (targets[i], FpDiv(row[targets[i]], total)))
  }

  /** One row, normalised by its carrying total; targets out of reach are omitted. */
  ghost function RatioRow(a: nat, row: map<nat, int>, reach: Reach): seq<(nat, int)>
  {
    TargetsAre(a, row, reach);
    TargetsInRow(a, row, reach);
    if Total(CarryingRow(a, row)) == 0 then [] else RatiosOf(row, Total(CarryingRow(a, row)), Targets(a, row, reach))
  }

  lemma TargetsInRow(a: nat, row: map<nat, int>, reach: Reach)
    ensures forall i :: 0 <= i < |Targets(a, row, reach)| ==> Targets(a, row, reach)[i] in row
  {
    forall i | 0 <= i < |Targets(a, row, reach)| ensures Targets(a, row, reach)[i] in row {
      TargetsAre(a, row, reach);
      assert Targets(a, row, reach)[i] in Targets(a, row, reach);
    }
  }

  // ---- what one source pushes -----------------------------------------------

  function Pushed(damping: int, score: int, decay: int, row: seq<(nat, int)>): seq<Posting<nat>>
  {
    seq(|row|, i requires 0 <= i < |row| => Posting(row[i].0, FpMul(damping, FpMul(FpMul(score, row[i].1), decay))))
  }

  ghost function RowFor(net: Network, reach: Reach, a: nat): seq<(nat, int)>
  {
    if a in net.outgoing then RatioRow(a, net.outgoing[a], reach) else []
  }

  ghost function SourceFlow(c: Config, net: Network, hops: Hopcounts, current: map<nat, int>): nat -> seq<Posting<nat>>
  {
    (a: nat) => Pushed(c.damping, Get(current, a), Decay(AsPull(c), hops, a), RowFor(net, ReachOf(hops), a))
  }

  lemma FpMulByOne(w: int)
    ensures FpMul(w, S) == w
  {
  }

  /** The pull form of the configuration boosts nothing. */
  lemma NoBoost(c: Config, a: nat, w: int)
    ensures Boosted(AsPull(c), a, w) == w
  {
    FpMulByOne(w);
  }

  lemma PullRow(net: Network, c: Config, a: nat)
    ensures Row(AsPull(c), Ranked(net, c), a) == if a in net.outgoing then CarryingRow(a, net.outgoing[a]) else map[]
  {
  }

  /** What a source pushes to a reachable recipient is what the recipient would pull from it. */
  lemma PushedIsPulled(c: Config, net: Network, hops: Hopcounts, current: map<nat, int>, a: nat, r: nat)
    ensures AmountAt(SourceFlow(c, net, hops, current)(a), r)
      == if Reachable(hops, r) then Contribution(AsPull(c), Ranked(net, c), hops, current, a, r) else 0
  {
    PullRow(net, c, a);
    var flow := SourceFlow(c, net, hops, current)(a);
    if a in net.outgoing && Total(CarryingRow(a, net.outgoing[a])) != 0 {
      RowPushed(c, net, hops, current, a, r);
    } else {
      assert flow == [];
      assert AmountsAt(flow, r) == [];
    }
  }

  /** The pull form's contribution over a row that exists. */
  lemma PulledFlow(c: Config, net: Network, hops: Hopcounts, current: map<nat, int>, a: nat, r: nat, total: int)
    requires a in net.outgoing && total == Total(CarryingRow(a, net.outgoing[a])) != 0
    ensures Contribution(AsPull(c), Ranked(net, c), hops, current, a, r) ==
      if r in net.outgoing[a] && Carries(a, r, net.outgoing[a][r])
      then FpMul(c.damping, FpMul(FpMul(Get(current, a), FpDiv(net.outgoing[a][r], total)), Decay(AsPull(c), hops, a)))
      else 0
  {
    PullRow(net, c, a);
    if r in net.outgoing[a] { NoBoost(c, a, net.outgoing[a][r]); }
  }

  /** The flow of a row, target by target. */
  ghost predicate FlowsTo(flow: seq<Posting<nat>>, row: map<nat, int>, targets: seq<nat>, total: int, damping: int,
                          score: int, decay: int)
    requires total != 0
  {
    && |flow| == |targets|
    && (forall i :: 0 <= i < |flow| ==> targets[i] in row)
    && forall i :: 0 <= i < |flow| ==>
      flow[i] == Posting(targets[i], FpMul(damping, FpMul(FpMul(score, FpDiv(row[targets[i]], total)), decay)))
  }

  lemma FlowOfRow(c: Config, net: Network, hops: Hopcounts, current: map<nat, int>, a: nat, total: int)
    requires a in net.outgoing && total == Total(CarryingRow(a, net.outgoing[a])) != 0
    ensures FlowsTo(SourceFlow(c, net, hops, current)(a), net.outgoing[a],
                    Targets(a, net.outgoing[a], ReachOf(hops)), total,
                    c.damping, Get(current, a), Decay(AsPull(c), hops, a))
  {
    TargetsInRow(a, net.outgoing[a], ReachOf(hops));
  }

  lemma FlowAt(flow: seq<Posting<nat>>, row: map<nat, int>, targets: seq<nat>, total: int, damping: int, score: int,
               decay: int, r: nat)
    requires total != 0 && FlowsTo(flow, row, targets, total, damping, score, decay) && Distinct(targets)
    ensures r in targets ==>
      r in row && AmountAt(flow, r) == FpMul(damping, FpMul(FpMul(score, FpDiv(row[r], total)), decay))
    ensures r !in targets ==> AmountAt(flow, r) == 0
  {
    assert forall i, j :: 0 <= i < j < |flow| ==> flow[i].key != flow[j].key;
    if r in targets {
      var j :| 0 <= j < |targets| && targets[j] == r;
      assert flow[j].key == r;
      AmountAtOnly(flow, j);
    } else {
      AmountAtAbsent(flow, r);
    }
  }

  lemma RowPushed(c: Config, net: Network, hops: Hopcounts, current: map<nat, int>, a: nat, r: nat)
    requires a in net.outgoing && Total(CarryingRow(a, net.outgoing[a])) != 0
    ensures AmountAt(SourceFlow(c, net, hops, current)(a), r)
      == if Reachable(hops, r) then Contribution(AsPull(c), Ranked(net, c), hops, current, a, r) else 0
  {
    var row, total := net.outgoing[a], Total(CarryingRow(a, net.outgoing[a]));
    var targets := Targets(a, row, ReachOf(hops));
    TargetsAre(a, row, ReachOf(hops));
    FlowOfRow(c, net, hops, current, a, total);
    FlowAt(SourceFlow(c, net, hops, current)(a), row, targets, total, c.damping, Get(current, a),
      Decay(AsPull(c), hops, a), r);
    PulledFlow(c, net, hops, current, a, r, total);
    assert r in targets <==> r in row && Carries(a, r, row[r]) && Reachable(hops, r);
  }

  // ---- one iteration -----------------------------------------------------------

  ghost function AllFlows(c: Config, net: Network, hops: Hopcounts, current: map<nat, int>): seq<Posting<nat>>
  {
    Spread(SourceFlow(c, net, hops, current), AscendingNats(net.nodes + c.seeds))
  }

  lemma FlowsPulled(c: Config, net: Network, hops: Hopcounts, current: map<nat, int>, r: nat, nodes: seq<nat>, i: nat)
    requires i < |nodes|
    ensures AmountsFrom(SourceFlow(c, net, hops, current), nodes, r)[i]
      == if Reachable(hops, r) then Contribution(AsPull(c), Ranked(net, c), hops, current, nodes[i], r) else 0
  {
    PushedIsPulled(c, net, hops, current, nodes[i], r);
  }

  lemma PulledAlong(c: Config, net: Network, hops: Hopcounts, current: map<nat, int>, r: nat, nodes: seq<nat>,
                    amounts: seq<int>)
    requires nodes == AscendingNats(net.nodes + c.seeds) && |amounts| == |nodes|
    requires forall i :: 0 <= i < |nodes| ==>
      amounts[i] == Contribution(AsPull(c), Ranked(net, c), hops, current, nodes[i], r)
    ensures Sum(amounts) == Total(Inflows(AsPull(c), Ranked(net, c), hops, current, r))
  {
    var inflows := Inflows(AsPull(c), Ranked(net, c), hops, current, r);
    assert inflows.Keys == net.nodes + c.seeds;
    TotalAscending(inflows, nodes);
    assert Along(inflows, nodes) == amounts;
  }

  lemma ReceivedIsPulled(c: Config, net: Network, hops: Hopcounts, current: map<nat, int>, r: nat)
    ensures AmountAt(AllFlows(c, net, hops, current), r)
      == if Reachable(hops, r) then Total(Inflows(AsPull(c), Ranked(net, c), hops, current, r)) else 0
  {
    var nodes := AscendingNats(net.nodes + c.seeds);
    var amounts := AmountsFrom(SourceFlow(c, net, hops, current), nodes, r);
    SpreadAmount(SourceFlow(c, net, hops, current), nodes, r);
    forall i | 0 <= i < |nodes|
      ensures amounts[i]
        == if Reachable(hops, r) then Contribution(AsPull(c), Ranked(net, c), hops, current, nodes[i], r) else 0
    {
      FlowsPulled(c, net, hops, current, r, nodes, i);
    }
    if Reachable(hops, r) { PulledAlong(c, net, hops, current, r, nodes, amounts); } else { SumConstant(amounts, 0); }
  }

  /** Each account of `base` with what was posted to it. */
  ghost function OnTop(base: map<nat, int>, ps: seq<Posting<nat>>): (r: map<nat, int>)
    ensures r.Keys == base.Keys
  {
    map v | v in base :: base[v] + AmountAt(ps, v)
  }

  function Teleport(c: Config, initial: map<nat, int>): (r: map<nat, int>)
    ensures r.Keys == initial.Keys
  {
    map v | v in initial :: FpMul(S - c.damping, initial[v])
  }

  lemma ScorePushed(c: Config, net: Network, hops: Hopcounts, initial: map<nat, int>, current: map<nat, int>, v: nat)
    requires v in initial
    ensures OnTop(Teleport(c, initial), AllFlows(c, net, hops, current))[v]
      == NewScore(AsPull(c), Ranked(net, c), hops, initial, current, v)
  {
    ReceivedIsPulled(c, net, hops, current, v);
  }

  /** Pushing from the sources gives every recipient exactly what pulling would. */
  lemma PushIsPull(c: Config, net: Network, hops: Hopcounts, initial: map<nat, int>, current: map<nat, int>)
    requires initial.Keys == net.nodes + c.seeds
    ensures OnTop(Teleport(c, initial), AllFlows(c, net, hops, current))
      == Step(AsPull(c), Ranked(net, c), hops, initial, current)
  {
    var pushed := OnTop(Teleport(c, initial), AllFlows(c, net, hops, current));
    forall v | v in pushed ensures pushed[v] == NewScore(AsPull(c), Ranked(net, c), hops, initial, current, v) {
      ScorePushed(c, net, hops, initial, current, v);
    }
    SameMap(pushed, AsPull(c), Ranked(net, c), hops, initial, current);
  }

  lemma SameMap(pushed: map<nat, int>, cfg: Cfg, net: Network, hops: Hopcounts, initial: map<nat, int>,
                current: map<nat, int>)
    requires pushed.Keys == net.nodes
    requires forall v :: v in pushed ==> pushed[v] == NewScore(cfg, net, hops, initial, current, v)
    ensures pushed == Step(cfg, net, hops, initial, current)
  {
  }
}
