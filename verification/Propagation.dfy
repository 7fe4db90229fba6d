/** Iterated Hamilton propagation of reviewer standing: `hamilton` and the second half of `core`
    in research/erc8004-reputation/reference.ts. */
module Propagation {
  import opened Wrappers
  import opened Totals
  import opened Ordering
  import opened Hamilton

  /** The prior weights in policy order, and the arithmetic policy. */
  datatype Plan = Plan(prior: seq<Item>, targets: set<nat>, massScale: nat, dampingNumerator: nat,
    dampingDenominator: nat, iterations: nat)

  datatype Failure = NoReviewers | InvalidHamilton | ResidualLeft | MassNotConserved
  datatype Outcome = Ranks(masses: map<nat, int>) | Failed(failure: Failure)

  /** What the validation of a policy establishes. */
  ghost predicate Validated(plan: Plan) {
    DistinctKeys(plan.prior) && plan.massScale > 0 && 0 < plan.dampingNumerator < plan.dampingDenominator
  }

  // ---- Hamilton results kept in a map -----------------------------------------

  /** `new Map(allocated.map((entry) => [entry.key, entry.allocation]))`: a repeated key keeps its last entry. */
  function AllocationMap(shares: seq<Share>): map<nat, int>
  {
    if shares == [] then map[] else
      AllocationMap(shares[..|shares| - 1])[shares[|shares| - 1].key := shares[|shares| - 1].allocation]
  }

  /** The allocations that a later entry of the same key overwrites. */
  function Overwritten(shares: seq<Share>): int
  {
    if shares == [] then 0 else
      Overwritten(shares[..|shares| - 1]) + Get(AllocationMap(shares[..|shares| - 1]), shares[|shares| - 1].key)
  }

  /** The map holds everything but what was overwritten. */
  lemma {:induction false} MapTotal(shares: seq<Share>)
    ensures Total(AllocationMap(shares)) + Overwritten(shares) == Sum(Allocations(shares))
  {
    if shares != [] {
      var n := |shares| - 1;
      MapTotal(shares[..n]);
      TotalUpdate(AllocationMap(shares[..n]), shares[n].key, shares[n].allocation);
      assert Allocations(shares)[..n] == Allocations(shares[..n]);
    }
  }

  lemma {:induction false} MapEntries(shares: seq<Share>, k: nat)
    ensures k in AllocationMap(shares) <==> exists i :: 0 <= i < |shares| && shares[i].key == k
    ensures k in AllocationMap(shares) ==> AllocationMap(shares)[k] >= 0
  {
    if shares != [] {
      var n := |shares| - 1;
      MapEntries(shares[..n], k);
      if i :| 0 <= i < n && shares[i].key == k { assert shares[..n][i].key == k; }
      if i :| 0 <= i < n && shares[..n][i].key == k { assert shares[i].key == k; }
    }
  }

  /** Of two entries for one key, the earlier weighs nothing. */
  ghost predicate RepeatsWeighNothing(items: seq<Item>) {
    forall i, j :: 0 <= i < j < |items| && items[i].key == items[j].key ==> items[i].value == 0
  }

  ghost predicate RepeatsGetNothing(shares: seq<Share>) {
    forall i, j :: 0 <= i < j < |shares| && shares[i].key == shares[j].key ==> shares[i].allocation == 0
  }

  ghost predicate LastOf(shares: seq<Share>, k: nat, h: nat) {
    h < |shares| && shares[h].key == k && forall i :: h < i < |shares| ==> shares[i].key != k
  }

  /** What the map holds was written by the last entry of the key. */
  lemma {:induction false} MapHolds(shares: seq<Share>, k: nat) returns (h: nat)
    requires k in AllocationMap(shares)
    ensures LastOf(shares, k, h) && AllocationMap(shares)[k] == shares[h].allocation
  {
    var n := |shares| - 1;
    if shares[n].key == k {
      h := n;
    } else {
      h := MapHolds(shares[..n], k);
      assert forall i :: h < i < n ==> shares[..n][i].key != k;
    }
  }

  /** One more entry keeps the property exactly when it overwrites nothing. */
  lemma RepeatsSnoc(shares: seq<Share>)
    requires shares != []
    ensures var n := |shares| - 1;
      RepeatsGetNothing(shares) <==>
        RepeatsGetNothing(shares[..n]) && Get(AllocationMap(shares[..n]), shares[n].key) == 0
  {
    var n := |shares| - 1;
    var front, k := shares[..n], shares[n].key;
    MapEntries(front, k);
    if RepeatsGetNothing(shares) {
      assert forall i :: 0 <= i < n ==> front[i] == shares[i];
      if k in AllocationMap(front) { var h := MapHolds(front, k); }
    }
    if RepeatsGetNothing(front) && Get(AllocationMap(front), k) == 0 {
      if k in AllocationMap(front) {
        var h := MapHolds(front, k);
        LastRepeatDecides(shares, h);
      } else {
        assert forall i :: 0 <= i < n ==> front[i].key != k;
      }
    }
  }

  lemma LastRepeatDecides(shares: seq<Share>, h: nat)
    requires shares != [] && LastOf(shares[..|shares| - 1], shares[|shares| - 1].key, h)
    requires RepeatsGetNothing(shares[..|shares| - 1]) && shares[h].allocation == 0
    ensures RepeatsGetNothing(shares)
  {
    var n := |shares| - 1;
    var front := shares[..n];
    forall i, j | 0 <= i < j < |shares| && shares[i].key == shares[j].key ensures shares[i].allocation == 0 {
      assert front[i] == shares[i] && (j < n ==> front[j] == shares[j]);
      assert front[h] == shares[h];
    }
  }

  /** Nothing is overwritten exactly when every entry with a later rival got nothing. */
  lemma {:induction false} OverwrittenMeaning(shares: seq<Share>)
    ensures Overwritten(shares) >= 0
    ensures Overwritten(shares) == 0 <==> RepeatsGetNothing(shares)
  {
    if shares != [] {
      var n := |shares| - 1;
      OverwrittenMeaning(shares[..n]);
      RepeatsSnoc(shares);
      MapEntries(shares[..n], shares[n].key);
    }
  }

  /** An entry without weight gets nothing. */
  lemma WeightlessGetsNothing(pool: nat, denominator: nat, items: seq<Item>, k: nat)
    requires Weighted(denominator, items) && k < |items| && items[k].value == 0
    ensures Apportioned(pool, denominator, items)[k].allocation == 0
  {
    ApportionedIsLargestRemainder(pool, denominator, items);
    QuotaRule(pool, denominator, items, Apportioned(pool, denominator, items), k);
  }

  lemma RepeatsConserve(pool: nat, denominator: nat, items: seq<Item>)
    requires Weighted(denominator, items) && RepeatsWeighNothing(items)
    ensures RepeatsGetNothing(Apportioned(pool, denominator, items))
  {
    var shares := Apportioned(pool, denominator, items);
    ApportionedIsLargestRemainder(pool, denominator, items);
    forall i, j | 0 <= i < j < |shares| && shares[i].key == shares[j].key ensures shares[i].allocation == 0 {
      assert SameItem(shares[i], items[i]) && SameItem(shares[j], items[j]);
      WeightlessGetsNothing(pool, denominator, items, i);
    }
  }

  /** At a pool equal to the weights every entry gets its weight, so a repeat shows. */
  lemma ConservedRepeats(denominator: nat, items: seq<Item>)
    requires Weighted(denominator, items)
    requires RepeatsGetNothing(Apportioned(denominator, denominator, items))
    ensures RepeatsWeighNothing(items)
  {
    var shares := Apportioned(denominator, denominator, items);
    ApportionedIsLargestRemainder(denominator, denominator, items);
    forall i, j | 0 <= i < j < |items| && items[i].key == items[j].key ensures items[i].value == 0 {
      assert SameItem(shares[i], items[i]) && SameItem(shares[j], items[j]);
      OwnTotalReproducesValues(denominator, items, i);
    }
  }

  ghost predicate Conserves(pool: nat, denominator: nat, items: seq<Item>)
    requires Weighted(denominator, items)
  {
    Total(AllocationMap(Apportioned(pool, denominator, items))) == pool
  }

  lemma ConservesMeaning(pool: nat, denominator: nat, items: seq<Item>)
    requires Weighted(denominator, items)
    ensures Conserves(pool, denominator, items) <==> RepeatsGetNothing(Apportioned(pool, denominator, items))
  {
    MapTotal(Apportioned(pool, denominator, items));
    ApportionedSum(pool, denominator, items);
    OverwrittenMeaning(Apportioned(pool, denominator, items));
  }

  /** Stored in a map, the allocations of every pool add up to it exactly when, of two entries for
      one key, the earlier weighs nothing. */
  lemma ConservedExactlyWhen(denominator: nat, items: seq<Item>)
    requires Weighted(denominator, items)
    ensures (forall pool: nat :: Conserves(pool, denominator, items)) <==> RepeatsWeighNothing(items)
  {
    if RepeatsWeighNothing(items) {
      forall pool: nat ensures Conserves(pool, denominator, items) {
        RepeatsConserve(pool, denominator, items);
        ConservesMeaning(pool, denominator, items);
      }
    }
    if forall pool: nat :: Conserves(pool, denominator, items) {
      assert Conserves(denominator, denominator, items);
      ConservesMeaning(denominator, denominator, items);
      ConservedRepeats(denominator, items);
    }
  }

  /** With distinct keys the result as a map still adds up to the pool. */
  lemma DistinctKeysConserve(pool: nat, denominator: nat, items: seq<Item>)
    requires Weighted(denominator, items) && DistinctKeys(items)
    ensures Total(AllocationMap(Apportioned(pool, denominator, items))) == pool
  {
    ConservedExactlyWhen(denominator, items);
    assert Conserves(pool, denominator, items);
  }

  /** A repeated key does lose mass: two entries of weights `a` and `b` for one account keep only `b`. */
  lemma RepeatedKeyLosesMass(key: nat, a: nat, b: nat)
    requires a + b > 0
    ensures var items := [Item(key, a), Item(key, b)];
      && Weighted(a + b, items)
      && Total(AllocationMap(Apportioned(a + b, a + b, items))) == b
  {
    var items := [Item(key, a), Item(key, b)];
    assert Values(items) == [a] + [b] && [a] == [] + [a];
    SumSnoc([a], b);
    SumSnoc([], a);
    var shares := Apportioned(a + b, a + b, items);
    OwnTotalReproducesValues(a + b, items, 0);
    OwnTotalReproducesValues(a + b, items, 1);
    ApportionedIsLargestRemainder(a + b, a + b, items);
    assert SameItem(shares[0], items[0]) && SameItem(shares[1], items[1]);
    assert shares == [shares[0]] + [shares[1]] && [shares[0]] == [] + [shares[0]];
    var m := AllocationMap(shares);
    assert AllocationMap(shares[..1]) == map[key := a];
    assert m == map[key := b];
    TotalRemove(m, key);
    assert m - {key} == map[];
  }

  /** `hamilton`. */
  function Shared(pool: nat, items: seq<Item>): (r: map<nat, int>)
  {
    if Sum(Values(items)) <= 0 then map[] else AllocationMap(Apportioned(pool, Sum(Values(items)), items))
  }

  lemma SharedFacts(pool: nat, items: seq<Item>)
    requires DistinctKeys(items) && Sum(Values(items)) > 0
    ensures Total(Shared(pool, items)) == pool
    ensures forall k :: k in Shared(pool, items) <==> exists i :: 0 <= i < |items| && items[i].key == k
    ensures NonNegative(Shared(pool, items))
  {
    var denominator := Sum(Values(items));
    var shares := Apportioned(pool, denominator, items);
    DistinctKeysConserve(pool, denominator, items);
    ApportionedIsLargestRemainder(pool, denominator, items);
    assert forall i :: 0 <= i < |items| ==> SameItem(shares[i], items[i]);
    forall k ensures k in AllocationMap(shares) <==> exists i :: 0 <= i < |items| && items[i].key == k {
      MapEntries(shares, k);
      if i :| 0 <= i < |items| && items[i].key == k { assert shares[i].key == k; }
      if i :| 0 <= i < |shares| && shares[i].key == k { assert items[i].key == k; }
    }
    forall k | k in AllocationMap(shares) ensures AllocationMap(shares)[k] >= 0 { MapEntries(shares, k); }
  }

  /** The residual loop, which stops early and then checks that nothing is left. */
  method HandOutResidual(floors: seq<Share>, order: seq<Place>, residual: nat) returns (shares: seq<Share>, left: nat)
    requires forall p :: 0 <= p < |order| ==> order[p].index < |floors|
    ensures residual <= |order| ==> left == 0 && shares == AwardFirst(floors, order, residual)
  {
    shares, left := floors, residual;
    for p := 0 to |order|
      invariant |shares| == |floors| && left <= residual
      invariant left == (if p <= residual then residual - p else 0)
      invariant shares == AwardFirst(floors, order, residual - left)
    {
      if left == 0 { return; }
      shares := shares[order[p].index := Award(shares[order[p].index])];
      left := left - 1;
    }
  }

  method CollectMap(shares: seq<Share>) returns (m: map<nat, int>)
    ensures m == AllocationMap(shares)
  {
    m := map[];
    for i := 0 to |shares|
      invariant m == AllocationMap(shares[..i])
    {
      assert shares[..i + 1][..i] == shares[..i];
      m := m[shares[i].key := shares[i].allocation];
    }
    assert shares[..|shares|] == shares;
  }

  /** `hamilton`: it fails exactly when the weights add up to nothing. */
  method Apportion(pool: nat, items: seq<Item>) returns (r: Outcome)
    ensures r == if Sum(Values(items)) <= 0 then Failed(InvalidHamilton) else Ranks(Shared(pool, items))
  {
    var denominator := AddUp(Values(items));
    if denominator <= 0 { return Failed(InvalidHamilton); }
    var floors := Floors(pool, denominator, items);
    var floored := AddUp(Allocations(floors));
    ResidualInRange(pool, denominator, items);
    OrderProperties(floors);
    var shares, left := HandOutResidual(floors, Order(floors), pool - floored);
    if left != 0 { return Failed(ResidualLeft); }
    var m := CollectMap(shares);
    r := Ranks(m);
  }

  // ---- adding one map into another ----------------------------------------------

  ghost function AddMap(a: map<nat, int>, b: map<nat, int>): (r: map<nat, int>)
    ensures r.Keys == a.Keys + b.Keys
  {
    map k | k in a.Keys + b.Keys :: Get(a, k) + Get(b, k)
  }

  lemma AddMapTotal(a: map<nat, int>, b: map<nat, int>)
    ensures Total(AddMap(a, b)) == Total(a) + Total(b)
  {
    var keys := a.Keys + b.Keys;
    var x, y := Padded(a, keys), Padded(b, keys);
    TotalPadded(a, x);
    TotalPadded(b, y);
    TotalAdd(x, y, AddMap(a, b));
  }

  ghost function Padded(m: map<nat, int>, keys: set<nat>): map<nat, int> { map k | k in keys :: Get(m, k) }

  ghost predicate PartlyAdded(next: map<nat, int>, allocations: map<nat, int>, keys: seq<nat>, r: map<nat, int>) {
    && (forall k :: k in r <==> k in next || k in keys)
    && forall k :: k in r ==> r[k] == Get(next, k) + (if k in keys then Get(allocations, k) else 0)
  }

  lemma AddOneMore(next: map<nat, int>, allocations: map<nat, int>, keys: seq<nat>, i: nat, r: map<nat, int>)
    requires Distinct(keys) && i < |keys| && PartlyAdded(next, allocations, keys[..i], r)
    ensures PartlyAdded(next, allocations, keys[..i + 1], r[keys[i] := Get(r, keys[i]) + Get(allocations, keys[i])])
  {
    TakeOneMore(keys, i);
    assert keys[i] !in keys[..i];
  }

  method AddKeys(next: map<nat, int>, allocations: map<nat, int>, keys: seq<nat>) returns (r: map<nat, int>)
    requires Distinct(keys) && forall i :: 0 <= i < |keys| ==> keys[i] in allocations
    ensures PartlyAdded(next, allocations, keys, r)
  {
    r := next;
    for i := 0 to |keys|
      invariant PartlyAdded(next, allocations, keys[..i], r)
    {
      AddOneMore(next, allocations, keys, i, r);
      r := r[keys[i] := Get(r, keys[i]) + allocations[keys[i]]];
    }
    assert keys[..|keys|] == keys;
  }

  lemma AllAdded(next: map<nat, int>, allocations: map<nat, int>, keys: seq<nat>, r: map<nat, int>)
    requires PartlyAdded(next, allocations, keys, r) && forall k :: k in keys <==> k in allocations
    ensures r == AddMap(next, allocations)
  {
    forall k ensures k in r <==> k in AddMap(next, allocations) {}
  }

  method AddInto(next: map<nat, int>, allocations: map<nat, int>) returns (r: map<nat, int>)
    ensures r == AddMap(next, allocations)
  {
    var keys := AscendingNats(allocations.Keys);
    r := AddKeys(next, allocations, keys);
    AscendingNatsMembers(allocations.Keys);
    AllAdded(next, allocations, keys, r);
  }

  // ---- one iteration ----------------------------------------------------------------

  function Nodes(plan: Plan): set<nat> { (set i | i in plan.prior :: i.key) + plan.targets }

  function DampingPool(plan: Plan): nat
    requires plan.dampingDenominator > 0
  {
    plan.massScale * plan.dampingNumerator / plan.dampingDenominator
  }

  lemma DampingPoolWithin(plan: Plan)
    requires 0 < plan.dampingNumerator < plan.dampingDenominator
    ensures DampingPool(plan) <= plan.massScale
  {
    QuotientFits(plan.massScale, plan.dampingNumerator, plan.dampingDenominator);
  }

  function NodeItems(nodes: seq<nat>, masses: map<nat, int>): seq<Item>
    requires forall i :: 0 <= i < |nodes| ==> nodes[i] in masses && masses[nodes[i]] >= 0
  {
    seq(|nodes|, i requires 0 <= i < |nodes| => Item(nodes[i], masses[nodes[i]]))
  }

  /** Where one node's budget goes: along its positive feedback, or back to the prior. */
  function Flow(plan: Plan, rows: map<nat, seq<Item>>, budgets: map<nat, int>, node: nat): map<nat, int>
  {
    if Get(budgets, node) <= 0 then map[] else
      Shared(budgets[node], if node in rows && rows[node] != [] then rows[node] else plan.prior)
  }

  ghost function AfterNodes(plan: Plan, rows: map<nat, seq<Item>>, base: map<nat, int>, budgets: map<nat, int>,
                            nodes: seq<nat>): map<nat, int>
  {
    if nodes == [] then base else
      AddMap(AfterNodes(plan, rows, base, budgets, nodes[..|nodes| - 1]), Flow(plan, rows, budgets, nodes[|nodes| - 1]))
  }

  /** Masses on every node, none negative, that add up to the scale. */
  ghost predicate Massed(plan: Plan, masses: map<nat, int>) {
    masses.Keys == Nodes(plan) && NonNegative(masses) && Total(masses) == plan.massScale
  }

  function OnNodes(plan: Plan, m: map<nat, int>): (r: map<nat, int>)
    ensures r.Keys == Nodes(plan)
  {
    map v | v in Nodes(plan) :: Get(m, v)
  }

  ghost function Step(plan: Plan, rows: map<nat, seq<Item>>, masses: map<nat, int>): map<nat, int>
    requires Validated(plan) && Massed(plan, masses)
  {
    var nodes := AscendingNats(Nodes(plan));
    var base := OnNodes(plan, Shared(TeleportPool(plan), plan.prior));
    AfterNodes(plan, rows, base, Shared(DampingPool(plan), NodeItems(nodes, masses)), nodes)
  }

  function TeleportPool(plan: Plan): nat
    requires 0 < plan.dampingNumerator < plan.dampingDenominator
  {
    DampingPoolWithin(plan);
    plan.massScale - DampingPool(plan)
  }

  /** Every row has positive weights on distinct targets of the policy. */
  ghost predicate RowsOk(plan: Plan, rows: map<nat, seq<Item>>) {
    forall v :: v in rows ==>
      DistinctKeys(rows[v]) && forall i :: 0 <= i < |rows[v]| ==> rows[v][i].value > 0 && rows[v][i].key in plan.targets
  }

  lemma PositiveWeights(items: seq<Item>)
    requires items != [] && forall i :: 0 <= i < |items| ==> items[i].value > 0
    ensures Sum(Values(items)) > 0
  {
    SumAtLeastTerm(Values(items), 0);
  }

  lemma FlowConserves(plan: Plan, rows: map<nat, seq<Item>>, budgets: map<nat, int>, node: nat)
    requires DistinctKeys(plan.prior) && Sum(Values(plan.prior)) > 0 && RowsOk(plan, rows) && NonNegative(budgets)
    ensures Total(Flow(plan, rows, budgets, node)) == Get(budgets, node)
    ensures NonNegative(Flow(plan, rows, budgets, node)) && Flow(plan, rows, budgets, node).Keys <= Nodes(plan)
  {
    if Get(budgets, node) > 0 {
      if node in rows && rows[node] != [] {
        PositiveWeights(rows[node]);
        SharedFacts(budgets[node], rows[node]);
      } else {
        PriorShared(plan, budgets[node]);
      }
    } else {
      assert Get(budgets, node) == 0;
    }
  }

  lemma PriorShared(plan: Plan, pool: nat)
    requires DistinctKeys(plan.prior) && Sum(Values(plan.prior)) > 0
    ensures Total(Shared(pool, plan.prior)) == pool && NonNegative(Shared(pool, plan.prior))
    ensures Shared(pool, plan.prior).Keys <= Nodes(plan)
  {
    SharedFacts(pool, plan.prior);
    forall k | k in Shared(pool, plan.prior) ensures k in Nodes(plan) {
      var i :| 0 <= i < |plan.prior| && plan.prior[i].key == k;
      assert plan.prior[i] in plan.prior;
    }
  }

  ghost function GetAlong(m: map<nat, int>, nodes: seq<nat>): seq<int>
  {
    seq(|nodes|, i requires 0 <= i < |nodes| => Get(m, nodes[i]))
  }

  lemma {:induction false} AfterNodesConserves(plan: Plan, rows: map<nat, seq<Item>>, base: map<nat, int>,
                                               budgets: map<nat, int>, nodes: seq<nat>)
    requires DistinctKeys(plan.prior) && Sum(Values(plan.prior)) > 0 && RowsOk(plan, rows) && NonNegative(budgets)
    requires base.Keys == Nodes(plan) && NonNegative(base)
    ensures var r := AfterNodes(plan, rows, base, budgets, nodes);
      r.Keys == Nodes(plan) && NonNegative(r) && Total(r) == Total(base) + Sum(GetAlong(budgets, nodes))
  {
    if nodes != [] {
      var n := |nodes| - 1;
      var before := AfterNodes(plan, rows, base, budgets, nodes[..n]);
      AfterNodesConserves(plan, rows, base, budgets, nodes[..n]);
      FlowConserves(plan, rows, budgets, nodes[n]);
      AddMapTotal(before, Flow(plan, rows, budgets, nodes[n]));
      assert GetAlong(budgets, nodes)[..n] == GetAlong(budgets, nodes[..n]);
    }
  }

  lemma NodeValues(nodes: seq<nat>, masses: map<nat, int>)
    requires forall i :: 0 <= i < |nodes| ==> nodes[i] in masses && masses[nodes[i]] >= 0
    ensures Values(NodeItems(nodes, masses)) == Along(masses, nodes)
  {
  }

  lemma NodeItemsSum(masses: map<nat, int>, nodes: seq<nat>)
    requires NonNegative(masses) && nodes == AscendingNats(masses.Keys)
    ensures DistinctKeys(NodeItems(nodes, masses)) && Sum(Values(NodeItems(nodes, masses))) == Total(masses)
  {
    TotalAscending(masses, nodes);
    NodeValues(nodes, masses);
  }

  lemma GetAlongTotal(m: map<nat, int>, nodes: seq<nat>)
    requires nodes == AscendingNats(m.Keys)
    ensures Sum(GetAlong(m, nodes)) == Total(m)
  {
    TotalAscending(m, nodes);
    assert GetAlong(m, nodes) == Along(m, nodes);
  }

  lemma NodeKeys(masses: map<nat, int>, nodes: seq<nat>, shared: map<nat, int>)
    requires NonNegative(masses) && nodes == AscendingNats(masses.Keys)
    requires forall k :: k in shared <==> exists i :: 0 <= i < |nodes| && NodeItems(nodes, masses)[i].key == k
    ensures shared.Keys == masses.Keys
  {
    AscendingNatsMembers(masses.Keys);
    forall k ensures k in shared <==> k in masses.Keys {
      if k in nodes { var i :| 0 <= i < |nodes| && nodes[i] == k; assert NodeItems(nodes, masses)[i].key == k; }
    }
  }

  /** The budgets divide the damped mass over exactly the nodes. */
  lemma BudgetFacts(masses: map<nat, int>, nodes: seq<nat>, pool: nat)
    requires NonNegative(masses) && nodes == AscendingNats(masses.Keys) && Total(masses) > 0
    ensures var budgets := Shared(pool, NodeItems(nodes, masses));
      budgets.Keys == masses.Keys && NonNegative(budgets) && Sum(GetAlong(budgets, nodes)) == pool
  {
    var items := NodeItems(nodes, masses);
    NodeItemsSum(masses, nodes);
    SharedFacts(pool, items);
    var budgets := Shared(pool, items);
    NodeKeys(masses, nodes, budgets);
    GetAlongTotal(budgets, nodes);
  }

  lemma OnNodesTotal(plan: Plan, m: map<nat, int>)
    requires m.Keys <= Nodes(plan) && NonNegative(m)
    ensures Total(OnNodes(plan, m)) == Total(m) && NonNegative(OnNodes(plan, m))
  {
    TotalPadded(m, OnNodes(plan, m));
  }

  /** Not a unit is lost or made in an iteration. */
  lemma StepConserves(plan: Plan, rows: map<nat, seq<Item>>, masses: map<nat, int>)
    requires Validated(plan) && Sum(Values(plan.prior)) > 0 && RowsOk(plan, rows) && Massed(plan, masses)
    ensures Massed(plan, Step(plan, rows, masses))
  {
    var nodes := AscendingNats(Nodes(plan));
    PriorShared(plan, TeleportPool(plan));
    OnNodesTotal(plan, Shared(TeleportPool(plan), plan.prior));
    BudgetFacts(masses, nodes, DampingPool(plan));
    AfterNodesConserves(plan, rows, OnNodes(plan, Shared(TeleportPool(plan), plan.prior)),
      Shared(DampingPool(plan), NodeItems(nodes, masses)), nodes);
  }

  // ---- the run --------------------------------------------------------------------------

  ghost function InitialMasses(plan: Plan): map<nat, int> { OnNodes(plan, Shared(plan.massScale, plan.prior)) }

  lemma InitialMassed(plan: Plan)
    requires Validated(plan) && Sum(Values(plan.prior)) > 0
    ensures Massed(plan, InitialMasses(plan))
  {
    PriorShared(plan, plan.massScale);
    OnNodesTotal(plan, Shared(plan.massScale, plan.prior));
  }

  ghost function MassesAfter(plan: Plan, rows: map<nat, seq<Item>>, k: nat): (r: map<nat, int>)
    requires Validated(plan) && Sum(Values(plan.prior)) > 0 && RowsOk(plan, rows)
    ensures Massed(plan, r)
  {
    if k == 0 then (InitialMassed(plan); InitialMasses(plan))
    else (StepConserves(plan, rows, MassesAfter(plan, rows, k - 1)); Step(plan, rows, MassesAfter(plan, rows, k - 1)))
  }

  /** The whole of it: after every iteration the masses add up to exactly the scale. */
  lemma PropagationConserves(plan: Plan, rows: map<nat, seq<Item>>, k: nat)
    requires Validated(plan) && Sum(Values(plan.prior)) > 0 && RowsOk(plan, rows)
    ensures Total(MassesAfter(plan, rows, k)) == plan.massScale
    ensures forall v :: v in MassesAfter(plan, rows, k) ==> 0 <= MassesAfter(plan, rows, k)[v] <= plan.massScale
  {
    var masses := MassesAfter(plan, rows, k);
    forall v | v in masses ensures masses[v] <= plan.massScale { TotalAtLeast(masses, v); }
  }

  /** The loop over the nodes of one iteration. */
  method SpreadNodes(plan: Plan, rows: map<nat, seq<Item>>, base: map<nat, int>, budgets: map<nat, int>,
                     nodes: seq<nat>)
    returns (r: Outcome)
    requires DistinctKeys(plan.prior) && Sum(Values(plan.prior)) > 0 && RowsOk(plan, rows) && NonNegative(budgets)
    ensures r == Ranks(AfterNodes(plan, rows, base, budgets, nodes))
  {
    var next := base;
    for i := 0 to |nodes|
      invariant next == AfterNodes(plan, rows, base, budgets, nodes[..i])
    {
      var node := nodes[i];
      assert nodes[..i + 1][..i] == nodes[..i];
      var budget := Get(budgets, node);
      if budget == 0 {
        AddNothing(next);
      } else {
        var items := if node in rows && rows[node] != [] then rows[node] else plan.prior;
        if items != plan.prior { PositiveWeights(rows[node]); }
        var allocations := Apportion(budget, items);
        if allocations.Failed? { return allocations; }
        next := AddInto(next, allocations.masses);
      }
    }
    assert nodes[..|nodes|] == nodes;
    r := Ranks(next);
  }

  lemma AddNothing(m: map<nat, int>)
    ensures AddMap(m, map[]) == m
  {
    assert forall k :: k in m ==> Get(m, k) + Get(map[], k) == m[k];
  }

  /** One iteration: no failure can occur in it. */
  method Iterate(plan: Plan, rows: map<nat, seq<Item>>, teleport: map<nat, int>, masses: map<nat, int>)
    returns (r: Outcome)
    requires Validated(plan) && Sum(Values(plan.prior)) > 0 && RowsOk(plan, rows) && Massed(plan, masses)
    requires teleport == Shared(TeleportPool(plan), plan.prior)
    ensures r == Ranks(Step(plan, rows, masses))
  {
    var nodes := AscendingNats(Nodes(plan));
    NodeItemsSum(masses, nodes);
    BudgetFacts(masses, nodes, DampingPool(plan));
    var budgets := Apportion(DampingPool(plan), NodeItems(nodes, masses));
    if budgets.Failed? { return budgets; }
    r := SpreadNodes(plan, rows, OnNodes(plan, teleport), budgets.masses, nodes);
    if r.Failed? { return r; }
    StepConserves(plan, rows, masses);
    var total := AddTotal(r.masses);
    if total != plan.massScale { return Failed(MassNotConserved); }
  }

  /** The propagation part of `core`: it fails only for want of prior weight. */
  method Propagate(plan: Plan, rows: map<nat, seq<Item>>) returns (r: Outcome)
    requires Validated(plan) && RowsOk(plan, rows)
    ensures plan.prior == [] ==> r == Failed(NoReviewers)
    ensures plan.prior != [] && Sum(Values(plan.prior)) <= 0 ==> r == Failed(InvalidHamilton)
    ensures plan.prior != [] && Sum(Values(plan.prior)) > 0 ==> r == Ranks(MassesAfter(plan, rows, plan.iterations))
  {
    if plan.prior == [] { return Failed(NoReviewers); }
    r := Apportion(plan.massScale, plan.prior);
    if r.Failed? { return r; }
    var teleport := Apportion(TeleportPool(plan), plan.prior);
    if teleport.Failed? { return teleport; }
    InitialMassed(plan);
    r := Ranks(OnNodes(plan, r.masses));
    for k := 0 to plan.iterations
      invariant r == Ranks(MassesAfter(plan, rows, k))
    {
      r := Iterate(plan, rows, teleport.masses, r.masses);
    }
  }
}
