/** What the propagation does with the included feedback, said without an algorithm, and the run that
    does it: `core` in research/erc8004-reputation/reference.ts. */
module ReviewerRank {
  import opened Wrappers
  import opened Totals
  import opened Ordering
  import opened Hamilton
  import opened Propagation
  import opened Division
  import F = Feedback

  // ---- the law of one iteration -------------------------------------------------------

  /** What the included positive feedback says, by reviewer and target. */
  ghost predicate PraiseOf(included: seq<F.Feedback>, praise: map<nat, map<nat, int>>) {
    && (forall r :: r in included && r.reviewer.Some? && r.value > 0 ==>
          r.reviewer.value in praise && r.target in praise[r.reviewer.value]
          && praise[r.reviewer.value][r.target] == r.value)
    && (forall v, t :: v in praise && t in praise[v] ==> Praises(included, v, t, praise[v][t]))
    && (forall v :: v in praise ==> praise[v] != map[])
  }

  ghost predicate Praises(included: seq<F.Feedback>, v: nat, t: nat, value: int) {
    value > 0 && exists r :: r in included && r.reviewer == Some(v) && r.target == t && r.value == value
  }

  /** The prior weights, by reviewer. */
  ghost function Prior(plan: Plan): map<nat, int>
    requires DistinctKeys(plan.prior)
  {
    WeightsOf(plan.prior)
  }

  /** What the nodes hand to `t`. */
  ghost function HandedTo(flows: map<nat, map<nat, int>>, t: nat): (r: map<nat, int>)
    ensures r.Keys == flows.Keys
  {
    map v | v in flows :: Get(flows[v], t)
  }

  function Damped(plan: Plan): int
    requires plan.dampingDenominator > 0
  {
    plan.massScale * plan.dampingNumerator / plan.dampingDenominator
  }

  function Undamped(plan: Plan): int
    requires plan.dampingDenominator > 0
  {
    plan.massScale - Damped(plan)
  }

  /** By whom a node divides its budget: by its praise if it has any, and otherwise by the prior. */
  ghost function DividesBy(plan: Plan, praise: map<nat, map<nat, int>>, v: nat): map<nat, int>
    requires DistinctKeys(plan.prior)
  {
    if v in praise then praise[v] else Prior(plan)
  }

  /** The damped part of the scale is divided into budgets by the masses, each budget by praise or prior, and the
      rest of the scale by the prior; a node's next mass is its part of the rest and all it is handed. */
  ghost predicate Handed(plan: Plan, praise: map<nat, map<nat, int>>, masses: map<nat, int>, next: map<nat, int>,
                         rest: map<nat, int>, budgets: map<nat, int>, flows: map<nat, map<nat, int>>)
    requires DistinctKeys(plan.prior) && plan.dampingDenominator > 0
  {
    && Divides(Undamped(plan), Prior(plan), rest)
    && Divides(Damped(plan), masses, budgets)
    && flows.Keys == masses.Keys
    && (forall v :: v in masses ==> v in budgets && Divides(budgets[v], DividesBy(plan, praise, v), flows[v]))
    && next.Keys == masses.Keys
    && (forall t :: t in next ==> next[t] == Get(rest, t) + Total(HandedTo(flows, t)))
  }

  ghost predicate Moves(plan: Plan, praise: map<nat, map<nat, int>>, masses: map<nat, int>, next: map<nat, int>)
    requires DistinctKeys(plan.prior) && plan.dampingDenominator > 0
  {
    exists rest, budgets, flows :: Handed(plan, praise, masses, next, rest, budgets, flows)
  }

  /** Masses from the start on, each following from the one before it. */
  ghost predicate Follows(plan: Plan, praise: map<nat, map<nat, int>>, trail: seq<map<nat, int>>)
    requires DistinctKeys(plan.prior) && plan.dampingDenominator > 0
  {
    && trail != [] && Starts(plan, trail[0])
    && forall i :: 0 < i < |trail| ==> Moves(plan, praise, trail[i - 1], trail[i])
  }

  /** The masses the law reaches after `k` iterations, from the scale divided by the prior. */
  ghost predicate Reached(plan: Plan, praise: map<nat, map<nat, int>>, k: nat, masses: map<nat, int>)
    requires DistinctKeys(plan.prior) && plan.dampingDenominator > 0
  {
    exists trail :: |trail| == k + 1 && Follows(plan, praise, trail) && trail[k] == masses
  }

  ghost predicate Starts(plan: Plan, masses: map<nat, int>)
    requires DistinctKeys(plan.prior)
  {
    masses.Keys == Nodes(plan) && exists first: map<nat, int> :: StartsWith(plan, first, masses)
  }

  ghost predicate StartsWith(plan: Plan, first: map<nat, int>, masses: map<nat, int>)
    requires DistinctKeys(plan.prior)
  {
    Divides(plan.massScale, Prior(plan), first) && forall v :: v in masses ==> masses[v] == Get(first, v)
  }

  // ---- the loops keep the law ------------------------------------------------------------

  /** The praise that the rows hold. */
  ghost function PraiseIn(rows: map<nat, seq<Item>>): map<nat, map<nat, int>>
    requires forall v :: v in rows ==> DistinctKeys(rows[v])
  {
    map v | v in rows && rows[v] != [] :: WeightsOf(rows[v])
  }

  /** The items a node divides by. */
  function ItemsFor(plan: Plan, rows: map<nat, seq<Item>>, v: nat): seq<Item>
  {
    if v in rows && rows[v] != [] then rows[v] else plan.prior
  }

  lemma ItemsForDivide(plan: Plan, rows: map<nat, seq<Item>>, v: nat, budget: nat)
    requires DistinctKeys(plan.prior) && Sum(Values(plan.prior)) > 0 && RowsOk(plan, rows)
    ensures Divides(budget, DividesBy(plan, PraiseIn(rows), v), Shared(budget, ItemsFor(plan, rows, v)))
  {
    if v in rows && rows[v] != [] { PositiveWeights(rows[v]); }
    SharedDivides(budget, ItemsFor(plan, rows, v));
  }

  /** Dividing nothing hands out nothing. */
  lemma NothingHanded(plan: Plan, rows: map<nat, seq<Item>>, v: nat, t: nat)
    requires DistinctKeys(plan.prior) && Sum(Values(plan.prior)) > 0 && RowsOk(plan, rows)
    ensures Get(Shared(0, ItemsFor(plan, rows, v)), t) == 0
  {
    if v in rows && rows[v] != [] { PositiveWeights(rows[v]); }
    var items := ItemsFor(plan, rows, v);
    SharedFacts(0, items);
    if t in Shared(0, items) { TotalAtLeast(Shared(0, items), t); }
  }

  ghost function FlowsOf(plan: Plan, rows: map<nat, seq<Item>>, budgets: map<nat, int>, nodes: set<nat>)
    : (r: map<nat, map<nat, int>>)
    ensures r.Keys == nodes
  {
    map v | v in nodes :: if Get(budgets, v) >= 0 then Shared(Get(budgets, v), ItemsFor(plan, rows, v)) else map[]
  }

  lemma FlowHands(plan: Plan, rows: map<nat, seq<Item>>, budgets: map<nat, int>, nodes: set<nat>, v: nat, t: nat)
    requires DistinctKeys(plan.prior) && Sum(Values(plan.prior)) > 0 && RowsOk(plan, rows)
    requires NonNegative(budgets) && v in nodes
    ensures Get(Flow(plan, rows, budgets, v), t) == Get(FlowsOf(plan, rows, budgets, nodes)[v], t)
  {
    if Get(budgets, v) == 0 { NothingHanded(plan, rows, v, t); }
  }

  ghost function FlowsAlong(plan: Plan, rows: map<nat, seq<Item>>, budgets: map<nat, int>, nodes: seq<nat>, t: nat)
    : seq<int>
  {
    seq(|nodes|, i requires 0 <= i < |nodes| => Get(Flow(plan, rows, budgets, nodes[i]), t))
  }

  lemma AddMapAt(a: map<nat, int>, b: map<nat, int>, t: nat)
    ensures Get(AddMap(a, b), t) == Get(a, t) + Get(b, t)
  {
  }

  lemma FlowsAlongSnoc(plan: Plan, rows: map<nat, seq<Item>>, budgets: map<nat, int>, nodes: seq<nat>, t: nat)
    requires nodes != []
    ensures var n := |nodes| - 1;
      Sum(FlowsAlong(plan, rows, budgets, nodes, t))
        == Sum(FlowsAlong(plan, rows, budgets, nodes[..n], t)) + Get(Flow(plan, rows, budgets, nodes[n]), t)
  {
    var n := |nodes| - 1;
    assert FlowsAlong(plan, rows, budgets, nodes, t)[..n] == FlowsAlong(plan, rows, budgets, nodes[..n], t);
  }

  lemma {:induction false} AfterNodesAt(plan: Plan, rows: map<nat, seq<Item>>, base: map<nat, int>,
                                        budgets: map<nat, int>, nodes: seq<nat>, t: nat)
    ensures Get(AfterNodes(plan, rows, base, budgets, nodes), t)
      == Get(base, t) + Sum(FlowsAlong(plan, rows, budgets, nodes, t))
  {
    if nodes != [] {
      var n := |nodes| - 1;
      AfterNodesAt(plan, rows, base, budgets, nodes[..n], t);
      FlowsAlongSnoc(plan, rows, budgets, nodes, t);
      AddMapAt(AfterNodes(plan, rows, base, budgets, nodes[..n]), Flow(plan, rows, budgets, nodes[n]), t);
    }
  }

  lemma FlowsAre(plan: Plan, rows: map<nat, seq<Item>>, budgets: map<nat, int>, nodes: set<nat>, keys: seq<nat>,
                 t: nat, handed: map<nat, int>)
    requires DistinctKeys(plan.prior) && Sum(Values(plan.prior)) > 0 && RowsOk(plan, rows) && NonNegative(budgets)
    requires handed == HandedTo(FlowsOf(plan, rows, budgets, nodes), t)
    requires forall i :: 0 <= i < |keys| ==> keys[i] in nodes
    ensures FlowsAlong(plan, rows, budgets, keys, t) == Along(handed, keys)
  {
    forall i | 0 <= i < |keys| ensures Get(Flow(plan, rows, budgets, keys[i]), t) == handed[keys[i]] {
      FlowHands(plan, rows, budgets, nodes, keys[i], t);
    }
  }

  lemma FlowsTotal(plan: Plan, rows: map<nat, seq<Item>>, budgets: map<nat, int>, nodes: set<nat>, t: nat,
                   handed: map<nat, int>)
    requires DistinctKeys(plan.prior) && Sum(Values(plan.prior)) > 0 && RowsOk(plan, rows) && NonNegative(budgets)
    requires handed == HandedTo(FlowsOf(plan, rows, budgets, nodes), t)
    ensures Sum(FlowsAlong(plan, rows, budgets, AscendingNats(nodes), t)) == Total(handed)
  {
    FlowsAre(plan, rows, budgets, nodes, AscendingNats(nodes), t, handed);
    assert handed.Keys == nodes;
    TotalAscending(handed, AscendingNats(nodes));
  }

  lemma NodeListed(masses: map<nat, int>, nodes: seq<nat>, k: nat)
    requires NonNegative(masses) && nodes == AscendingNats(masses.Keys) && k in masses
    ensures exists i :: 0 <= i < |NodeItems(nodes, masses)| && NodeItems(nodes, masses)[i].key == k
  {
    var i := KeyIndex(masses.Keys, k);
    assert NodeItems(nodes, masses)[i].key == k;
  }

  lemma NodesWeigh(masses: map<nat, int>, nodes: seq<nat>, items: seq<Item>)
    requires NonNegative(masses) && nodes == AscendingNats(masses.Keys) && items == NodeItems(nodes, masses)
    ensures DistinctKeys(items) && Weighs(items, masses)
  {
    forall k | k in masses ensures exists i :: 0 <= i < |items| && items[i].key == k { NodeListed(masses, nodes, k); }
  }

  ghost function BudgetsOf(plan: Plan, masses: map<nat, int>): map<nat, int>
    requires Validated(plan) && Massed(plan, masses)
  {
    Shared(DampingPool(plan), NodeItems(AscendingNats(Nodes(plan)), masses))
  }

  lemma ItemsDivide(pool: nat, items: seq<Item>, weights: map<nat, int>)
    requires DistinctKeys(items) && Weighs(items, weights) && Sum(Values(items)) > 0
    ensures Divides(pool, weights, Shared(pool, items))
  {
    SharedDivides(pool, items);
    WeightsAre(items, weights);
  }

  lemma BudgetsDivide(plan: Plan, masses: map<nat, int>)
    requires Validated(plan) && Massed(plan, masses)
    ensures Divides(Damped(plan), masses, BudgetsOf(plan, masses))
    ensures NonNegative(BudgetsOf(plan, masses)) && BudgetsOf(plan, masses).Keys == Nodes(plan)
  {
    var nodes := AscendingNats(Nodes(plan));
    NodeItemsSum(masses, nodes);
    NodesWeigh(masses, nodes, NodeItems(nodes, masses));
    ItemsDivide(DampingPool(plan), NodeItems(nodes, masses), masses);
    BudgetFacts(masses, nodes, DampingPool(plan));
  }

  lemma RestDivides(plan: Plan)
    requires Validated(plan) && Sum(Values(plan.prior)) > 0
    ensures Divides(Undamped(plan), Prior(plan), Shared(TeleportPool(plan), plan.prior))
  {
    SharedDivides(TeleportPool(plan), plan.prior);
  }

  ghost predicate AllDivide(plan: Plan, praise: map<nat, map<nat, int>>, budgets: map<nat, int>,
                            flows: map<nat, map<nat, int>>)
    requires DistinctKeys(plan.prior)
  {
    flows.Keys == budgets.Keys &&
      forall v :: v in budgets ==> Divides(budgets[v], DividesBy(plan, praise, v), flows[v])
  }

  lemma FlowsDivide(plan: Plan, rows: map<nat, seq<Item>>, budgets: map<nat, int>, nodes: set<nat>,
                    flows: map<nat, map<nat, int>>)
    requires DistinctKeys(plan.prior) && Sum(Values(plan.prior)) > 0 && RowsOk(plan, rows)
    requires NonNegative(budgets) && budgets.Keys == nodes && flows == FlowsOf(plan, rows, budgets, nodes)
    ensures AllDivide(plan, PraiseIn(rows), budgets, flows)
  {
    forall v | v in nodes ensures Divides(budgets[v], DividesBy(plan, PraiseIn(rows), v), flows[v]) {
      ItemsForDivide(plan, rows, v, budgets[v]);
    }
  }

  ghost predicate Sums(next: map<nat, int>, rest: map<nat, int>, flows: map<nat, map<nat, int>>) {
    forall t :: t in next ==> next[t] == Get(rest, t) + Total(HandedTo(flows, t))
  }

  lemma NextAt(plan: Plan, rows: map<nat, seq<Item>>, next: map<nat, int>, rest: map<nat, int>,
               budgets: map<nat, int>, nodes: set<nat>, t: nat)
    requires DistinctKeys(plan.prior) && Sum(Values(plan.prior)) > 0 && RowsOk(plan, rows) && NonNegative(budgets)
    requires next == AfterNodes(plan, rows, OnNodes(plan, rest), budgets, AscendingNats(nodes)) && t in Nodes(plan)
    ensures Get(next, t) == Get(rest, t) + Total(HandedTo(FlowsOf(plan, rows, budgets, nodes), t))
  {
    AfterNodesAt(plan, rows, OnNodes(plan, rest), budgets, AscendingNats(nodes), t);
    FlowsTotal(plan, rows, budgets, nodes, t, HandedTo(FlowsOf(plan, rows, budgets, nodes), t));
  }

  lemma NextSums(plan: Plan, rows: map<nat, seq<Item>>, next: map<nat, int>, rest: map<nat, int>,
                 budgets: map<nat, int>, nodes: set<nat>)
    requires DistinctKeys(plan.prior) && Sum(Values(plan.prior)) > 0 && RowsOk(plan, rows) && NonNegative(budgets)
    requires next == AfterNodes(plan, rows, OnNodes(plan, rest), budgets, AscendingNats(nodes))
    requires next.Keys == Nodes(plan)
    ensures Sums(next, rest, FlowsOf(plan, rows, budgets, nodes))
  {
    forall t | t in next
      ensures next[t] == Get(rest, t) + Total(HandedTo(FlowsOf(plan, rows, budgets, nodes), t))
    {
      NextAt(plan, rows, next, rest, budgets, nodes, t);
    }
  }

  lemma StepIs(plan: Plan, rows: map<nat, seq<Item>>, masses: map<nat, int>, rest: map<nat, int>)
    requires Validated(plan) && Massed(plan, masses) && rest == Shared(TeleportPool(plan), plan.prior)
    ensures Step(plan, rows, masses)
      == AfterNodes(plan, rows, OnNodes(plan, rest), BudgetsOf(plan, masses), AscendingNats(Nodes(plan)))
  {
  }

  ghost predicate FlowsFit(plan: Plan, praise: map<nat, map<nat, int>>, nodes: set<nat>, budgets: map<nat, int>,
                           rest: map<nat, int>, next: map<nat, int>, flows: map<nat, map<nat, int>>)
    requires DistinctKeys(plan.prior)
  {
    flows.Keys == nodes && AllDivide(plan, praise, budgets, flows) && Sums(next, rest, flows)
  }

  ghost predicate HasFlows(plan: Plan, praise: map<nat, map<nat, int>>, nodes: set<nat>, budgets: map<nat, int>,
                           rest: map<nat, int>, next: map<nat, int>)
    requires DistinctKeys(plan.prior)
  {
    exists flows :: FlowsFit(plan, praise, nodes, budgets, rest, next, flows)
  }

  lemma MovesBy(plan: Plan, praise: map<nat, map<nat, int>>, masses: map<nat, int>, next: map<nat, int>,
                rest: map<nat, int>, budgets: map<nat, int>)
    requires DistinctKeys(plan.prior) && plan.dampingDenominator > 0
    requires Divides(Undamped(plan), Prior(plan), rest) && Divides(Damped(plan), masses, budgets)
    requires next.Keys == masses.Keys && budgets.Keys == masses.Keys
    requires HasFlows(plan, praise, masses.Keys, budgets, rest, next)
    ensures Moves(plan, praise, masses, next)
  {
    var flows :| FlowsFit(plan, praise, masses.Keys, budgets, rest, next, flows);
    assert Handed(plan, praise, masses, next, rest, budgets, flows);
  }

  lemma NextFlows(plan: Plan, rows: map<nat, seq<Item>>, nodes: set<nat>, next: map<nat, int>, rest: map<nat, int>,
                  budgets: map<nat, int>)
    requires Validated(plan) && Sum(Values(plan.prior)) > 0 && RowsOk(plan, rows) && nodes == Nodes(plan)
    requires NonNegative(budgets) && budgets.Keys == nodes && next.Keys == nodes
    requires next == AfterNodes(plan, rows, OnNodes(plan, rest), budgets, AscendingNats(nodes))
    ensures HasFlows(plan, PraiseIn(rows), nodes, budgets, rest, next)
  {
    var flows := FlowsOf(plan, rows, budgets, nodes);
    FlowsDivide(plan, rows, budgets, nodes, flows);
    NextSums(plan, rows, next, rest, budgets, nodes);
    assert FlowsFit(plan, PraiseIn(rows), nodes, budgets, rest, next, flows);
  }

  lemma StepFlows(plan: Plan, rows: map<nat, seq<Item>>, masses: map<nat, int>)
    requires Validated(plan) && Sum(Values(plan.prior)) > 0 && RowsOk(plan, rows) && Massed(plan, masses)
    ensures Step(plan, rows, masses).Keys == Nodes(plan)
    ensures HasFlows(plan, PraiseIn(rows), Nodes(plan), BudgetsOf(plan, masses),
      Shared(TeleportPool(plan), plan.prior), Step(plan, rows, masses))
  {
    BudgetsDivide(plan, masses);
    StepConserves(plan, rows, masses);
    StepIs(plan, rows, masses, Shared(TeleportPool(plan), plan.prior));
    NextFlows(plan, rows, Nodes(plan), Step(plan, rows, masses), Shared(TeleportPool(plan), plan.prior),
      BudgetsOf(plan, masses));
  }

  /** One iteration of the loops keeps the law. */
  lemma StepMoves(plan: Plan, rows: map<nat, seq<Item>>, masses: map<nat, int>)
    requires Validated(plan) && Sum(Values(plan.prior)) > 0 && RowsOk(plan, rows) && Massed(plan, masses)
    ensures Moves(plan, PraiseIn(rows), masses, Step(plan, rows, masses))
  {
    RestDivides(plan);
    BudgetsDivide(plan, masses);
    StepFlows(plan, rows, masses);
    MovesBy(plan, PraiseIn(rows), masses, Step(plan, rows, masses), Shared(TeleportPool(plan), plan.prior),
      BudgetsOf(plan, masses));
  }

  lemma InitialStarts(plan: Plan)
    requires Validated(plan) && Sum(Values(plan.prior)) > 0
    ensures Starts(plan, InitialMasses(plan))
  {
    SharedDivides(plan.massScale, plan.prior);
    assert StartsWith(plan, Shared(plan.massScale, plan.prior), InitialMasses(plan));
  }

  lemma MassesStep(plan: Plan, rows: map<nat, seq<Item>>, k: nat, before: map<nat, int>, after: map<nat, int>)
    requires Validated(plan) && Sum(Values(plan.prior)) > 0 && RowsOk(plan, rows)
    requires k > 0 && before == MassesAfter(plan, rows, k - 1) && after == MassesAfter(plan, rows, k)
    ensures Moves(plan, PraiseIn(rows), before, after)
  {
    StepMoves(plan, rows, MassesAfter(plan, rows, k - 1));
  }

  lemma MassesStart(plan: Plan, rows: map<nat, seq<Item>>, first: map<nat, int>)
    requires Validated(plan) && Sum(Values(plan.prior)) > 0 && RowsOk(plan, rows) && first == MassesAfter(plan, rows, 0)
    ensures Starts(plan, first)
  {
    InitialStarts(plan);
  }

  ghost predicate AreMasses(plan: Plan, rows: map<nat, seq<Item>>, trail: seq<map<nat, int>>)
    requires Validated(plan) && Sum(Values(plan.prior)) > 0 && RowsOk(plan, rows)
  {
    forall i: nat :: i < |trail| ==> trail[i] == MassesAfter(plan, rows, i)
  }

  lemma TrailOfMasses(plan: Plan, rows: map<nat, seq<Item>>, k: nat) returns (trail: seq<map<nat, int>>)
    requires Validated(plan) && Sum(Values(plan.prior)) > 0 && RowsOk(plan, rows)
    ensures |trail| == k + 1 && AreMasses(plan, rows, trail)
  {
    trail := seq(k + 1, i requires 0 <= i <= k => MassesAfter(plan, rows, i));
  }

  lemma MassesAt(plan: Plan, rows: map<nat, seq<Item>>, trail: seq<map<nat, int>>, i: nat)
    requires Validated(plan) && Sum(Values(plan.prior)) > 0 && RowsOk(plan, rows) && AreMasses(plan, rows, trail)
    requires i < |trail|
    ensures trail[i] == MassesAfter(plan, rows, i)
  {
  }

  lemma TrailMoves(plan: Plan, rows: map<nat, seq<Item>>, trail: seq<map<nat, int>>, i: nat)
    requires Validated(plan) && Sum(Values(plan.prior)) > 0 && RowsOk(plan, rows) && AreMasses(plan, rows, trail)
    requires 0 < i < |trail|
    ensures Moves(plan, PraiseIn(rows), trail[i - 1], trail[i])
  {
    MassesAt(plan, rows, trail, i - 1);
    MassesAt(plan, rows, trail, i);
    MassesStep(plan, rows, i, trail[i - 1], trail[i]);
  }

  lemma TrailFollows(plan: Plan, rows: map<nat, seq<Item>>, trail: seq<map<nat, int>>)
    requires Validated(plan) && Sum(Values(plan.prior)) > 0 && RowsOk(plan, rows)
    requires AreMasses(plan, rows, trail) && trail != []
    ensures Follows(plan, PraiseIn(rows), trail)
  {
    MassesStart(plan, rows, trail[0]);
    forall i | 0 < i < |trail| ensures Moves(plan, PraiseIn(rows), trail[i - 1], trail[i]) {
      TrailMoves(plan, rows, trail, i);
    }
  }

  /** So do all of them. */
  lemma MassesReached(plan: Plan, rows: map<nat, seq<Item>>, k: nat, masses: map<nat, int>)
    requires Validated(plan) && Sum(Values(plan.prior)) > 0 && RowsOk(plan, rows)
    requires masses == MassesAfter(plan, rows, k)
    ensures Reached(plan, PraiseIn(rows), k, masses)
  {
    var trail := TrailOfMasses(plan, rows, k);
    TrailFollows(plan, rows, trail);
    assert trail[k] == masses;
  }

  // ---- the rows come from the included feedback ------------------------------------------

  function PositiveBy(node: nat): F.Feedback -> bool {
    (r: F.Feedback) => r.reviewer == Some(node) && r.value > 0
  }

  function AsItems(records: seq<F.Feedback>): (r: seq<Item>)
    requires forall r :: r in records ==> r.value > 0
    ensures |r| == |records|
  {
    seq(|records|, i requires 0 <= i < |records| => Item(records[i].target, records[i].value))
  }

  lemma SelectedPositive(included: seq<F.Feedback>, node: nat)
    ensures forall r :: r in Filter(PositiveBy(node), included) ==>
      r.reviewer == Some(node) && r.value > 0 && r in included
  {
    FilterMembers(PositiveBy(node), included);
  }

  function RowOf(included: seq<F.Feedback>, node: nat): seq<Item>
  {
    SelectedPositive(included, node);
    AsItems(Filter(PositiveBy(node), included))
  }

  ghost predicate RowsOf(included: seq<F.Feedback>, rows: map<nat, seq<Item>>) {
    forall v :: (if v in rows then rows[v] else []) == RowOf(included, v)
  }

  lemma RowSnoc(included: seq<F.Feedback>, i: nat, v: nat)
    requires i < |included|
    ensures RowOf(included[..i + 1], v) == RowOf(included[..i], v)
      + (if included[i].reviewer == Some(v) && included[i].value > 0
         then [Item(included[i].target, included[i].value)] else [])
  {
    FilterSnoc(PositiveBy(v), included, i);
  }

  /** The loop that collects the positive pairs by reviewer. */
  method CollectRows(included: seq<F.Feedback>) returns (rows: map<nat, seq<Item>>)
    requires forall i :: 0 <= i < |included| ==> included[i].reviewer.Some?
    ensures RowsOf(included, rows)
  {
    rows := map[];
    for i := 0 to |included|
      invariant RowsOf(included[..i], rows)
    {
      var pair := included[i];
      ghost var before := rows;
      if pair.value > 0 {
        var node := pair.reviewer.value;
        var row := if node in rows then rows[node] else [];
        rows := rows[node := row + [Item(pair.target, pair.value)]];
      }
      forall v ensures (if v in rows then rows[v] else []) == RowOf(included[..i + 1], v) {
        RowSnoc(included, i, v);
        assert (if v in before then before[v] else []) == RowOf(included[..i], v);
      }
    }
    assert included[..|included|] == included;
  }

  /** Since one record speaks for each pair, no row names a target twice. */
  lemma RowsAreOk(policy: F.Policy, reviewers: set<nat>, records: seq<F.Feedback>, included: seq<F.Feedback>,
                  plan: Plan, rows: map<nat, seq<Item>>)
    requires F.UniqueIds(records) && F.IsIncluded(policy, reviewers, records, included)
    requires RowsOf(included, rows) && policy.targets <= plan.targets
    ensures RowsOk(plan, rows)
  {
    forall v | v in rows
      ensures DistinctKeys(rows[v]) && forall i :: 0 <= i < |rows[v]| ==>
        rows[v][i].value > 0 && rows[v][i].key in plan.targets
    {
      RowIsOk(policy, reviewers, records, included, plan, v);
      assert rows[v] == RowOf(included, v);
    }
  }

  lemma RowIsOk(policy: F.Policy, reviewers: set<nat>, records: seq<F.Feedback>, included: seq<F.Feedback>, plan: Plan,
                v: nat)
    requires F.UniqueIds(records) && F.IsIncluded(policy, reviewers, records, included)
      && policy.targets <= plan.targets
    ensures var row := RowOf(included, v);
      DistinctKeys(row) && forall i :: 0 <= i < |row| ==> row[i].value > 0 && row[i].key in plan.targets
  {
    var chosen := Filter(PositiveBy(v), included);
    SelectedPositive(included, v);
    FilterDistinct(PositiveBy(v), included);
    forall i | 0 <= i < |chosen| ensures chosen[i].target in plan.targets {
      assert chosen[i] in chosen;
      assert F.Speaks(policy, reviewers, records, chosen[i]);
    }
    forall i, j | 0 <= i < j < |chosen| ensures chosen[i].target != chosen[j].target {
      assert chosen[i] in chosen && chosen[j] in chosen;
      assert F.Speaks(policy, reviewers, records, chosen[i]) && F.Speaks(policy, reviewers, records, chosen[j]);
      if chosen[i].target == chosen[j].target {
        F.OneVoicePerPair(policy, reviewers, records, chosen[i], chosen[j]);
        assert false;
      }
    }
  }

  // ---- from the records to the masses -----------------------------------------------

  ghost predicate PositiveRecord(included: seq<F.Feedback>, v: nat, r: F.Feedback) {
    r in included && r.reviewer == Some(v) && r.value > 0
  }

  lemma RowItem(included: seq<F.Feedback>, v: nat, i: nat)
    requires i < |RowOf(included, v)|
    ensures Praises(included, v, RowOf(included, v)[i].key, RowOf(included, v)[i].value)
  {
    SelectedPositive(included, v);
    var r := Filter(PositiveBy(v), included)[i];
    assert r in Filter(PositiveBy(v), included);
  }

  lemma RecordInRow(included: seq<F.Feedback>, v: nat, r: F.Feedback) returns (i: nat)
    requires PositiveRecord(included, v, r)
    ensures i < |RowOf(included, v)| && RowOf(included, v)[i] == Item(r.target, r.value)
  {
    SelectedPositive(included, v);
    FilterMember(PositiveBy(v), included, r);
    i :| 0 <= i < |Filter(PositiveBy(v), included)| && Filter(PositiveBy(v), included)[i] == r;
  }

  lemma RecordInPraise(plan: Plan, included: seq<F.Feedback>, rows: map<nat, seq<Item>>, v: nat, r: F.Feedback)
    requires RowsOf(included, rows) && RowsOk(plan, rows) && PositiveRecord(included, v, r)
    ensures v in PraiseIn(rows) && r.target in PraiseIn(rows)[v] && PraiseIn(rows)[v][r.target] == r.value
  {
    var i := RecordInRow(included, v, r);
    assert (if v in rows then rows[v] else []) == RowOf(included, v);
    assert rows[v][i].key == r.target;
  }

  lemma PraiseHasRecord(plan: Plan, included: seq<F.Feedback>, rows: map<nat, seq<Item>>, v: nat, t: nat)
    requires RowsOf(included, rows) && RowsOk(plan, rows) && v in PraiseIn(rows) && t in PraiseIn(rows)[v]
    ensures Praises(included, v, t, PraiseIn(rows)[v][t])
  {
    assert rows[v] == RowOf(included, v);
    var i :| 0 <= i < |rows[v]| && rows[v][i].key == t;
    RowItem(included, v, i);
  }

  lemma PraiseNotEmpty(plan: Plan, rows: map<nat, seq<Item>>, v: nat)
    requires RowsOk(plan, rows) && v in PraiseIn(rows)
    ensures PraiseIn(rows)[v] != map[]
  {
    assert rows[v][0].key in WeightsOf(rows[v]);
  }

  /** The rows hold the praise. */
  lemma RowsHoldPraise(plan: Plan, included: seq<F.Feedback>, rows: map<nat, seq<Item>>)
    requires RowsOf(included, rows) && RowsOk(plan, rows)
    ensures PraiseOf(included, PraiseIn(rows))
  {
    var praise := PraiseIn(rows);
    forall r | r in included && r.reviewer.Some? && r.value > 0
      ensures r.reviewer.value in praise && r.target in praise[r.reviewer.value]
        && praise[r.reviewer.value][r.target] == r.value
    {
      RecordInPraise(plan, included, rows, r.reviewer.value, r);
    }
    forall v, t | v in praise && t in praise[v] ensures Praises(included, v, t, praise[v][t]) {
      PraiseHasRecord(plan, included, rows, v, t);
    }
    forall v | v in praise ensures praise[v] != map[] { PraiseNotEmpty(plan, rows, v); }
  }

  function Reviewers(plan: Plan): set<nat> { set i | i in plan.prior :: i.key }

  ghost predicate FromPraise(policy: F.Policy, records: seq<F.Feedback>, plan: Plan, masses: map<nat, int>,
                             included: seq<F.Feedback>, praise: map<nat, map<nat, int>>)
    requires DistinctKeys(plan.prior) && plan.dampingDenominator > 0
  {
    F.IsIncluded(policy, Reviewers(plan), records, included) && PraiseOf(included, praise)
      && Reached(plan, praise, plan.iterations, masses)
  }

  /** The masses follow, by the law, from the praise in the included records. */
  ghost predicate FromFeedback(policy: F.Policy, records: seq<F.Feedback>, plan: Plan, masses: map<nat, int>)
    requires DistinctKeys(plan.prior) && plan.dampingDenominator > 0
  {
    exists included, praise :: FromPraise(policy, records, plan, masses, included, praise)
  }

  lemma RunFollows(policy: F.Policy, records: seq<F.Feedback>, plan: Plan, included: seq<F.Feedback>,
                   rows: map<nat, seq<Item>>, masses: map<nat, int>)
    requires Validated(plan) && Sum(Values(plan.prior)) > 0 && RowsOk(plan, rows) && RowsOf(included, rows)
    requires F.IsIncluded(policy, Reviewers(plan), records, included)
    requires masses == MassesAfter(plan, rows, plan.iterations)
    ensures FromFeedback(policy, records, plan, masses)
  {
    RowsHoldPraise(plan, included, rows);
    MassesReached(plan, rows, plan.iterations, masses);
    assert FromPraise(policy, records, plan, masses, included, PraiseIn(rows));
  }

  /** From the raw records to the masses: the propagation follows the law and never fails to conserve. */
  method Run(policy: F.Policy, records: seq<F.Feedback>, plan: Plan) returns (r: Outcome)
    requires F.UniqueIds(records) && Validated(plan) && policy.targets == plan.targets
    ensures plan.prior == [] ==> r == Failed(NoReviewers)
    ensures plan.prior != [] && Sum(Values(plan.prior)) <= 0 ==> r == Failed(InvalidHamilton)
    ensures plan.prior != [] && Sum(Values(plan.prior)) > 0 ==>
      r.Ranks? && r.masses.Keys == Nodes(plan) && NonNegative(r.masses) && Total(r.masses) == plan.massScale
        && FromFeedback(policy, records, plan, r.masses)
  {
    var decisions, included := F.Decide(policy, Reviewers(plan), records);
    forall i | 0 <= i < |included| ensures included[i].reviewer.Some? {
      assert included[i] in included;
      assert F.Speaks(policy, Reviewers(plan), records, included[i]);
    }
    var rows := CollectRows(included);
    RowsAreOk(policy, Reviewers(plan), records, included, plan, rows);
    r := Propagate(plan, rows);
    if r.Ranks? { RunFollows(policy, records, plan, included, rows, r.masses); }
  }
}
