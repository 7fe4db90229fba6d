/** The loops of the production kernel, up to normalisation: crates/pagerank-core/src/pagerank.rs. */
module PushKernel {
  import opened Wrappers
  import opened Totals
  import opened Ordering
  import opened FixedPoint
  import opened Grouping
  import opened PageRank
  import opened DecaySearch
  import opened PushRank
  import opened MassBound
  import Bfs

  /** `None` without seeds, as for the distances. */
  type Decays = Option<map<nat, int>>

  ghost predicate DecaysOf(decays: Decays, hops: Hopcounts, base: int) {
    decays == if hops.None? then None else Some(Decayed(base, hops.value))
  }

  function ReachIn(decays: Decays): Reach { if decays.None? then None else Some(decays.value.Keys) }

  // ---- hoisting the rows -------------------------------------------------------

  function Zeroed(a: nat, row: map<nat, int>): (r: map<nat, int>)
    ensures r.Keys == row.Keys
  {
    map t | t in row :: if Carries(a, t, row[t]) then row[t] else 0
  }

  lemma ZeroedTotal(a: nat, row: map<nat, int>)
    ensures Total(Zeroed(a, row)) == Total(CarryingRow(a, row))
  {
    TotalPadded(CarryingRow(a, row), Zeroed(a, row));
  }

  method RowTotal(a: nat, row: map<nat, int>, targets: seq<nat>) returns (total: int)
    requires targets == AscendingNats(row.Keys)
    ensures total == Total(CarryingRow(a, row))
  {
    ghost var weights := Along(Zeroed(a, row), targets);
    total := 0;
    for i := 0 to |targets|
      invariant total == Sum(weights[..i])
    {
      SumPrefix(weights, i + 1);
      if Carries(a, targets[i], row[targets[i]]) { total := total + row[targets[i]]; }
    }
    assert weights[..|targets|] == weights;
    ZeroedTotal(a, row);
    TotalAscending(Zeroed(a, row), targets);
  }

  lemma RatiosSnoc(row: map<nat, int>, total: int, targets: seq<nat>, t: nat)
    requires total != 0 && t in row && forall i :: 0 <= i < |targets| ==> targets[i] in row
    ensures RatiosOf(row, total, targets + [t]) == RatiosOf(row, total, targets) + [(t, FpDiv(row[t], total))]
  {
  }

  ghost predicate InRow(row: map<nat, int>, targets: seq<nat>) { forall i :: 0 <= i < |targets| ==> targets[i] in row }

  lemma FilteredInRow(a: nat, row: map<nat, int>, reach: Reach, targets: seq<nat>)
    ensures InRow(row, Filter(Pushes(a, row, reach), targets))
  {
    var kept := Filter(Pushes(a, row, reach), targets);
    forall i | 0 <= i < |kept| ensures kept[i] in row { FilterMember(Pushes(a, row, reach), targets, kept[i]); }
  }

  /** The targets before position `i` have their ratios. */
  ghost predicate RowDone(a: nat, row: map<nat, int>, reach: Reach, total: int, targets: seq<nat>,
                          ratios: seq<(nat, int)>) {
    total != 0 && InRow(row, Filter(Pushes(a, row, reach), targets))
      && ratios == RatiosOf(row, total, Filter(Pushes(a, row, reach), targets))
  }

  lemma RowDoneSnoc(a: nat, row: map<nat, int>, reach: Reach, total: int, targets: seq<nat>, i: nat,
                    ratios: seq<(nat, int)>)
    requires i < |targets| && targets[i] in row && RowDone(a, row, reach, total, targets[..i], ratios)
    ensures RowDone(a, row, reach, total, targets[..i + 1],
      if Carries(a, targets[i], row[targets[i]]) && Counts(reach, targets[i])
      then ratios + [(targets[i], FpDiv(row[targets[i]], total))] else ratios)
  {
    FilterSnoc(Pushes(a, row, reach), targets, i);
    FilteredInRow(a, row, reach, targets[..i + 1]);
    if Pushes(a, row, reach)(targets[i]) {
      RatiosSnoc(row, total, Filter(Pushes(a, row, reach), targets[..i]), targets[i]);
    }
  }

  lemma RowDoneAll(a: nat, row: map<nat, int>, reach: Reach, total: int, targets: seq<nat>, ratios: seq<(nat, int)>)
    requires targets == AscendingNats(row.Keys) && total == Total(CarryingRow(a, row))
    requires RowDone(a, row, reach, total, targets[..|targets|], ratios)
    ensures ratios == RatioRow(a, row, reach)
  {
    assert targets[..|targets|] == targets;
  }

  method HoistRow(a: nat, row: map<nat, int>, reach: Reach) returns (ratios: seq<(nat, int)>)
    ensures ratios == RatioRow(a, row, reach)
  {
    var targets := AscendingNats(row.Keys);
    var total := RowTotal(a, row, targets);
    ratios := [];
    if total == 0 { return; }
    for i := 0 to |targets|
      invariant RowDone(a, row, reach, total, targets[..i], ratios)
    {
      RowDoneSnoc(a, row, reach, total, targets, i, ratios);
      if Carries(a, targets[i], row[targets[i]]) && Counts(reach, targets[i]) {
        ratios := ratios + [(targets[i], FpDiv(row[targets[i]], total))];
      }
    }
    RowDoneAll(a, row, reach, total, targets, ratios);
  }

  type Rows = map<nat, seq<(nat, int)>>

  function RowIn(rows: Rows, a: nat): seq<(nat, int)> { if a in rows then rows[a] else [] }

  ghost predicate Hoisted(rows: Rows, net: Network, reach: Reach, nodes: seq<nat>) {
    && (forall a :: a in rows ==> a in nodes)
    && forall a :: a in nodes ==> RowIn(rows, a) == RowFor(net, reach, a)
  }

  /** The loop over the sources; empty rows are left out. */
  method HoistRatios(net: Network, reach: Reach, nodes: seq<nat>) returns (rows: Rows)
    requires Distinct(nodes)
    ensures Hoisted(rows, net, reach, nodes)
  {
    rows := map[];
    for i := 0 to |nodes|
      invariant Hoisted(rows, net, reach, nodes[..i])
    {
      TakeOneMore(nodes, i);
      assert nodes[i] !in nodes[..i];
      if nodes[i] in net.outgoing {
        var row := HoistRow(nodes[i], net.outgoing[nodes[i]], reach);
        if row != [] { rows := rows[nodes[i] := row]; }
      }
    }
    assert nodes[..|nodes|] == nodes;
  }

  // ---- pushing --------------------------------------------------------------------

  lemma OnTopSnoc(base: map<nat, int>, ps: seq<Posting<nat>>, p: Posting<nat>)
    requires p.key in base
    ensures OnTop(base, ps + [p]) == OnTop(base, ps)[p.key := OnTop(base, ps)[p.key] + p.amount]
  {
    forall v | v in base ensures AmountAt(ps + [p], v) == AmountAt(ps, v) + (if p.key == v then p.amount else 0) {
      AmountAtSnoc(ps, p, v);
    }
  }

  lemma PushedSnoc(damping: int, score: int, decay: int, row: seq<(nat, int)>, i: nat)
    requires i < |row|
    ensures Pushed(damping, score, decay, row[..i + 1]) == Pushed(damping, score, decay, row[..i])
      + [Posting(row[i].0, FpMul(damping, FpMul(FpMul(score, row[i].1), decay)))]
  {
  }

  ghost predicate RowWithin(row: seq<(nat, int)>, keys: set<nat>) { forall i :: 0 <= i < |row| ==> row[i].0 in keys }

  /** The first `n` targets of a row have received their flow. */
  ghost predicate PushedTo(r: map<nat, int>, base: map<nat, int>, ps: seq<Posting<nat>>,
                           damping: int, score: int, decay: int, row: seq<(nat, int)>) {
    r == OnTop(base, ps + Pushed(damping, score, decay, row))
  }

  lemma PushedToSnoc(r: map<nat, int>, base: map<nat, int>, ps: seq<Posting<nat>>,
                     damping: int, score: int, decay: int, row: seq<(nat, int)>, i: nat)
    requires i < |row| && RowWithin(row, base.Keys) && PushedTo(r, base, ps, damping, score, decay, row[..i])
    ensures row[i].0 in r
    ensures PushedTo(r[row[i].0 := r[row[i].0] + FpMul(damping, FpMul(FpMul(score, row[i].1), decay))],
                     base, ps, damping, score, decay, row[..i + 1])
  {
    var sofar := Pushed(damping, score, decay, row[..i]);
    var p := Posting(row[i].0, FpMul(damping, FpMul(FpMul(score, row[i].1), decay)));
    PushedSnoc(damping, score, decay, row, i);
    assert ps + (sofar + [p]) == (ps + sofar) + [p];
    OnTopSnoc(base, ps + sofar, p);
  }

  lemma PushedToNone(r: map<nat, int>, base: map<nat, int>, ps: seq<Posting<nat>>,
                     damping: int, score: int, decay: int, row: seq<(nat, int)>)
    requires r == OnTop(base, ps)
    ensures PushedTo(r, base, ps, damping, score, decay, row[..0])
  {
    assert ps + [] == ps;
  }

  lemma PushedToAll(r: map<nat, int>, base: map<nat, int>, ps: seq<Posting<nat>>,
                    damping: int, score: int, decay: int, row: seq<(nat, int)>)
    requires PushedTo(r, base, ps, damping, score, decay, row[..|row|])
    ensures r == OnTop(base, ps + Pushed(damping, score, decay, row))
  {
    assert row[..|row|] == row;
  }

  /** What one source pushes along its row. */
  method PushRow(scores: map<nat, int>, ghost base: map<nat, int>, ghost ps: seq<Posting<nat>>,
                 damping: int, score: int, decay: int, row: seq<(nat, int)>)
    returns (r: map<nat, int>)
    requires scores == OnTop(base, ps) && RowWithin(row, base.Keys)
    ensures r == OnTop(base, ps + Pushed(damping, score, decay, row))
  {
    r := scores;
    PushedToNone(r, base, ps, damping, score, decay, row);
    for i := 0 to |row|
      invariant PushedTo(r, base, ps, damping, score, decay, row[..i])
    {
      PushedToSnoc(r, base, ps, damping, score, decay, row, i);
      var contribution := FpMul(score, row[i].1);
      contribution := FpMul(contribution, decay);
      var damped := FpMul(damping, contribution);
      r := r[row[i].0 := r[row[i].0] + damped];
    }
    PushedToAll(r, base, ps, damping, score, decay, row);
  }

  lemma RowForWithin(net: Network, reach: Reach, a: nat)
    requires EdgesClosed(net)
    ensures RowWithin(RowFor(net, reach, a), net.nodes)
  {
    if a in net.outgoing { TargetsInRow(a, net.outgoing[a], reach); }
  }

  function DecayIn(decays: Decays, a: nat): int { if decays.None? then S else Get(decays.value, a) }

  lemma DecayLookup(c: Config, hops: Hopcounts, decays: Decays, a: nat)
    requires DecaysOf(decays, hops, c.trustDecay)
    ensures DecayIn(decays, a) == Decay(AsPull(c), hops, a)
  {
  }

  /** One pass over the sources, on top of the teleport. */
  method PushAll(c: Config, net: Network, ghost hops: Hopcounts, decays: Decays, rows: Rows, nodes: seq<nat>,
                 teleport: map<nat, int>, current: map<nat, int>)
    returns (scores: map<nat, int>)
    requires EdgesClosed(net) && DecaysOf(decays, hops, c.trustDecay) && Hoisted(rows, net, ReachOf(hops), nodes)
    requires net.nodes <= teleport.Keys && forall i :: 0 <= i < |nodes| ==> nodes[i] in current
    ensures scores == OnTop(teleport, Spread(SourceFlow(c, net, hops, current), nodes))
  {
    ghost var f := SourceFlow(c, net, hops, current);
    scores := teleport;
    StartsAtBase(teleport);
    for i := 0 to |nodes|
      invariant scores == OnTop(teleport, Spread(f, nodes[..i]))
    {
      var a := nodes[i];
      SpreadSnoc(f, nodes, i);
      DecayLookup(c, hops, decays, a);
      RowForWithin(net, ReachOf(hops), a);
      assert a in nodes;
      scores := PushRow(scores, teleport, Spread(f, nodes[..i]),
        c.damping, current[a], DecayIn(decays, a), RowIn(rows, a));
    }
    assert nodes[..|nodes|] == nodes;
  }

  lemma StartsAtBase(base: map<nat, int>)
    ensures OnTop(base, []) == base
  {
    forall v | v in base ensures AmountAt<nat>([], v) == 0 { assert AmountsAt<nat>([], v) == []; }
  }

  // ---- the convergence test ------------------------------------------------------------

  function Part(m: map<nat, int>, keys: seq<nat>): map<nat, int> { map v | v in m && v in keys :: m[v] }

  lemma PartSnoc(m: map<nat, int>, keys: seq<nat>, i: nat)
    requires Distinct(keys) && i < |keys| && keys[i] in m
    ensures Part(m, keys[..i + 1]) == Part(m, keys[..i])[keys[i] := m[keys[i]]] && keys[i] !in Part(m, keys[..i])
  {
    TakeOneMore(keys, i);
  }

  lemma PartAll(m: map<nat, int>, keys: seq<nat>)
    requires forall v :: v in m ==> v in keys
    ensures Part(m, keys[..|keys|]) == m
  {
    assert keys[..|keys|] == keys;
  }

  lemma LargestSnoc(hops: Hopcounts, current: map<nat, int>, next: map<nat, int>, nodes: seq<nat>, i: nat,
                    maxDelta: nat)
    requires Distinct(nodes) && i < |nodes| && nodes[i] in next
      && Largest(hops, current, Part(next, nodes[..i]), maxDelta)
    ensures Largest(hops, current, Part(next, nodes[..i + 1]),
      Larger(hops, current, nodes[i], next[nodes[i]], maxDelta))
  {
    PartSnoc(next, nodes, i);
    LargestExtends(hops, current, Part(next, nodes[..i]), maxDelta, nodes[i], next[nodes[i]]);
  }

  lemma LargerMeaning(hops: Hopcounts, current: map<nat, int>, v: nat, score: int, maxDelta: nat)
    requires v in current
    ensures Larger(hops, current, v, score, maxDelta)
      == if Counts(ReachOf(hops), v) && Abs(score - current[v]) > maxDelta then Abs(score - current[v]) else maxDelta
  {
  }

  ghost predicate OnBoth(nodes: seq<nat>, a: map<nat, int>, b: map<nat, int>) {
    forall i :: 0 <= i < |nodes| ==> nodes[i] in a && nodes[i] in b
  }

  method MaxDelta(ghost hops: Hopcounts, reach: Reach, current: map<nat, int>, next: map<nat, int>, nodes: seq<nat>)
    returns (maxDelta: nat)
    requires reach == ReachOf(hops) && Distinct(nodes) && OnBoth(nodes, next, current)
    requires forall v :: v in next ==> v in nodes
    ensures Largest(hops, current, next, maxDelta)
  {
    maxDelta := 0;
    for i := 0 to |nodes|
      invariant Largest(hops, current, Part(next, nodes[..i]), maxDelta)
    {
      var v := nodes[i];
      LargestSnoc(hops, current, next, nodes, i, maxDelta);
      LargerMeaning(hops, current, v, next[v], maxDelta);
      if Counts(reach, v) {
        var delta := Abs(next[v] - current[v]);
        if delta > maxDelta { maxDelta := delta; }
      }
    }
    PartAll(next, nodes);
  }

  // ---- the iteration --------------------------------------------------------------------

  /** What the run needs: a closed graph, fractions, and weights that are not negative. */
  ghost predicate Accepted(c: Config, net: Network) {
    EdgesClosed(net) && NonNegativeWeights(net) && c.damping <= S && c.trustShare <= S && c.trustDecay <= S
  }

  lemma RankedSound(c: Config, net: Network)
    requires Accepted(c, net)
    ensures Sound(AsPull(c), Ranked(net, c))
  {
  }

  /** The scores that one iteration pushes. */
  ghost function PushedScores(c: Config, net: Network, hops: Hopcounts, initial: map<nat, int>, current: map<nat, int>)
    : (r: map<nat, int>)
    ensures r.Keys == initial.Keys
  {
    OnTop(Teleport(c, initial), AllFlows(c, net, hops, current))
  }

  /** The scores of one pass, and whether the source's assertion on their total lets them through. */
  method CheckTotal(scores: map<nat, int>) returns (ok: bool)
    ensures ok <==> Total(scores) <= S
  {
    var total := AddTotal(scores);
    ok := !(total > S);
  }

  ghost predicate SettledWhen(c: Config, net: Network, hops: Hopcounts, current: map<nat, int>, next: map<nat, int>,
                              settled: bool) {
    Settled(AsPull(c), Ranked(net, c), hops, current, next) == settled
  }

  lemma SettlesBelowTolerance(c: Config, net: Network, hops: Hopcounts, current: map<nat, int>, next: map<nat, int>,
                              maxDelta: nat)
    requires Largest(hops, current, next, maxDelta) && next.Keys == net.nodes + c.seeds
    ensures SettledWhen(c, net, hops, current, next, maxDelta < c.tolerance)
  {
    LargestSettles(AsPull(c), Ranked(net, c), hops, current, next, maxDelta);
  }

  lemma NodesInScope(keys: set<nat>, nodes: seq<nat>, scores: map<nat, int>, current: map<nat, int>)
    requires nodes == AscendingNats(keys) && scores.Keys == keys && current.Keys == keys
    ensures OnBoth(nodes, scores, current) && Distinct(nodes) && forall v :: v in scores ==> v in nodes
  {
    AscendingNatsMembers(keys);
  }

  /** The pushes of one pass, all sources included. */
  method PushOn(c: Config, net: Network, ghost hops: Hopcounts, decays: Decays, rows: Rows, nodes: seq<nat>,
                ghost initial: map<nat, int>, teleport: map<nat, int>, current: map<nat, int>)
    returns (next: map<nat, int>)
    requires EdgesClosed(net) && DecaysOf(decays, hops, c.trustDecay) && Hoisted(rows, net, ReachOf(hops), nodes)
    requires nodes == AscendingNats(net.nodes + c.seeds) && teleport == Teleport(c, initial)
    requires initial.Keys == net.nodes + c.seeds && current.Keys == net.nodes + c.seeds
    ensures next == PushedScores(c, net, hops, initial, current) && next.Keys == net.nodes + c.seeds
  {
    NodesInScope(net.nodes + c.seeds, nodes, initial, current);
    next := PushAll(c, net, hops, decays, rows, nodes, teleport, current);
  }

  /** The convergence test of one pass. */
  method CheckSettled(c: Config, ghost net: Network, ghost hops: Hopcounts, reach: Reach, nodes: seq<nat>,
                      current: map<nat, int>, next: map<nat, int>)
    returns (settled: bool)
    requires reach == ReachOf(hops) && nodes == AscendingNats(net.nodes + c.seeds)
    requires next.Keys == net.nodes + c.seeds && current.Keys == net.nodes + c.seeds
    ensures SettledWhen(c, net, hops, current, next, settled)
  {
    NodesInScope(net.nodes + c.seeds, nodes, next, current);
    var maxDelta := MaxDelta(hops, reach, current, next, nodes);
    SettlesBelowTolerance(c, net, hops, current, next, maxDelta);
    settled := maxDelta < c.tolerance;
  }

  lemma ReachInIs(decays: Decays, hops: Hopcounts, base: int)
    requires DecaysOf(decays, hops, base)
    ensures ReachIn(decays) == ReachOf(hops)
  {
  }

  /** One iteration; not `ok` where the source's assertion would stop the guest. */
  method Iteration(c: Config, net: Network, ghost hops: Hopcounts, decays: Decays, rows: Rows, nodes: seq<nat>,
                   ghost initial: map<nat, int>, teleport: map<nat, int>, current: map<nat, int>)
    returns (ok: bool, next: map<nat, int>, settled: bool)
    requires EdgesClosed(net) && DecaysOf(decays, hops, c.trustDecay) && Hoisted(rows, net, ReachOf(hops), nodes)
    requires nodes == AscendingNats(net.nodes + c.seeds) && teleport == Teleport(c, initial)
    requires initial.Keys == net.nodes + c.seeds && current.Keys == net.nodes + c.seeds
    ensures next == PushedScores(c, net, hops, initial, current)
    ensures ok <==> Total(next) <= S
    ensures ok ==> SettledWhen(c, net, hops, current, next, settled)
  {
    next := PushOn(c, net, hops, decays, rows, nodes, initial, teleport, current);
    settled := false;
    ok := CheckTotal(next);
    if !ok { return; }
    ReachInIs(decays, hops, c.trustDecay);
    settled := CheckSettled(c, net, hops, ReachIn(decays), nodes, current, next);
  }
}
