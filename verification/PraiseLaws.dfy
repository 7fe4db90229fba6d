/** What the law of the propagation says of budgets, praise and the unpraised, and that it has one solution:
    research/erc8004-reputation/reference.ts:660-728. */
module PraiseLaws {
  import opened Wrappers
  import opened Totals
  import opened Hamilton
  import opened Propagation
  import opened Division
  import opened ReviewerRank
  import F = Feedback

  // ---- what the law says ---------------------------------------------------------------

  ghost predicate PraiseNonNegative(praise: map<nat, map<nat, int>>) {
    forall v :: v in praise ==> NonNegative(praise[v])
  }

  lemma PraiseIsPositive(included: seq<F.Feedback>, praise: map<nat, map<nat, int>>)
    requires PraiseOf(included, praise)
    ensures PraiseNonNegative(praise)
  {
    forall v, t | v in praise && t in praise[v] ensures praise[v][t] >= 0 {
      assert Praises(included, v, t, praise[v][t]);
    }
  }

  lemma DampedWithin(plan: Plan)
    requires Validated(plan)
    ensures 0 <= Damped(plan) <= plan.massScale && Undamped(plan) >= 0
  {
    DampingPoolWithin(plan);
  }

  lemma DividesByNonNegative(plan: Plan, praise: map<nat, map<nat, int>>, v: nat)
    requires DistinctKeys(plan.prior) && PraiseNonNegative(praise)
    ensures NonNegative(DividesBy(plan, praise, v))
  {
    WeightsTotal(plan.prior);
  }

  lemma PartsNonNegative(pool: int, weights: map<nat, int>, parts: map<nat, int>)
    requires Divides(pool, weights, parts) && NonNegative(weights) && pool >= 0
    ensures NonNegative(parts)
  {
    forall k | k in parts ensures parts[k] >= 0 { PartNonNegative(pool, weights, Total(weights), parts, k); }
  }

  /** A reviewer with positive included feedback passes its whole budget to the agents it praised and nothing to
      anybody else, each within one unit of its proportion of the praise. */
  lemma PraiseIsPassedOn(plan: Plan, praise: map<nat, map<nat, int>>, masses: map<nat, int>, next: map<nat, int>,
                         rest: map<nat, int>, budgets: map<nat, int>, flows: map<nat, map<nat, int>>, v: nat)
    requires Validated(plan) && PraiseNonNegative(praise) && NonNegative(masses)
    requires Handed(plan, praise, masses, next, rest, budgets, flows) && v in masses && v in praise
    ensures v in budgets && v in flows && Total(flows[v]) == budgets[v] && flows[v].Keys == praise[v].Keys
    ensures var whole := Total(praise[v]); forall t :: t in praise[v] ==>
      0 - whole < whole * flows[v][t] - budgets[v] * praise[v][t] < whole
  {
    DampedWithin(plan);
    PartsNonNegative(Damped(plan), masses, budgets);
    assert Divides(budgets[v], DividesBy(plan, praise, v), flows[v]);
    forall t | t in praise[v]
      ensures 0 - Total(praise[v]) < Total(praise[v]) * flows[v][t] - budgets[v] * praise[v][t] < Total(praise[v])
    {
      DivisionIsNear(budgets[v], praise[v], Total(praise[v]), flows[v], t);
    }
  }

  /** A node without returns its budget to the prior, within one unit of the weights. */
  lemma RestReturnsToPrior(plan: Plan, praise: map<nat, map<nat, int>>, masses: map<nat, int>, next: map<nat, int>,
                           rest: map<nat, int>, budgets: map<nat, int>, flows: map<nat, map<nat, int>>, v: nat)
    requires Validated(plan) && NonNegative(masses)
    requires Handed(plan, praise, masses, next, rest, budgets, flows) && v in masses && v !in praise
    ensures v in budgets && v in flows && Total(flows[v]) == budgets[v] && flows[v].Keys == Prior(plan).Keys
    ensures var whole := Total(Prior(plan)); forall t :: t in Prior(plan) ==>
      0 - whole < whole * flows[v][t] - budgets[v] * Prior(plan)[t] < whole
  {
    var prior := Prior(plan);
    DampedWithin(plan);
    WeightsTotal(plan.prior);
    PartsNonNegative(Damped(plan), masses, budgets);
    assert Divides(budgets[v], DividesBy(plan, praise, v), flows[v]);
    forall t | t in prior
      ensures 0 - Total(prior) < Total(prior) * flows[v][t] - budgets[v] * prior[t] < Total(prior)
    {
      DivisionIsNear(budgets[v], prior, Total(prior), flows[v], t);
    }
  }

  /** The budgets add up to the damped part of the scale, each within one unit of its node's proportion. */
  lemma BudgetsAreDamped(plan: Plan, praise: map<nat, map<nat, int>>, masses: map<nat, int>, next: map<nat, int>,
                         rest: map<nat, int>, budgets: map<nat, int>, flows: map<nat, map<nat, int>>, v: nat)
    requires Validated(plan) && NonNegative(masses) && v in masses
    requires Handed(plan, praise, masses, next, rest, budgets, flows)
    ensures Total(budgets) == plan.massScale * plan.dampingNumerator / plan.dampingDenominator
    ensures v in budgets
    ensures 0 - Total(masses) < Total(masses) * budgets[v] - Total(budgets) * masses[v] < Total(masses)
  {
    DampedWithin(plan);
    DivisionIsNear(Damped(plan), masses, Total(masses), budgets, v);
  }

  // ---- who is not praised --------------------------------------------------------------

  ghost predicate Unnamed(plan: Plan, praise: map<nat, map<nat, int>>, t: nat)
    requires DistinctKeys(plan.prior)
  {
    t !in Prior(plan) && forall v :: v in praise ==> t !in praise[v]
  }

  lemma HandedParts(plan: Plan, praise: map<nat, map<nat, int>>, masses: map<nat, int>, next: map<nat, int>,
                    rest: map<nat, int>, budgets: map<nat, int>, flows: map<nat, map<nat, int>>)
    requires DistinctKeys(plan.prior) && plan.dampingDenominator > 0
    requires Handed(plan, praise, masses, next, rest, budgets, flows)
    ensures Divides(Undamped(plan), Prior(plan), rest) && Divides(Damped(plan), masses, budgets)
    ensures AllDivide(plan, praise, budgets, flows) && Sums(next, rest, flows) && next.Keys == masses.Keys
  {
  }

  lemma NothingHandedTo(plan: Plan, praise: map<nat, map<nat, int>>, budgets: map<nat, int>,
                        flows: map<nat, map<nat, int>>, t: nat)
    requires DistinctKeys(plan.prior) && Unnamed(plan, praise, t) && AllDivide(plan, praise, budgets, flows)
    ensures Total(HandedTo(flows, t)) == 0
  {
    forall v | v in flows ensures t !in flows[v] {
      assert Divides(budgets[v], DividesBy(plan, praise, v), flows[v]);
    }
    TotalZero(HandedTo(flows, t));
  }

  lemma UnnamedGetsNothing(plan: Plan, praise: map<nat, map<nat, int>>, masses: map<nat, int>, next: map<nat, int>,
                           rest: map<nat, int>, budgets: map<nat, int>, flows: map<nat, map<nat, int>>, t: nat)
    requires DistinctKeys(plan.prior) && plan.dampingDenominator > 0 && Unnamed(plan, praise, t)
    requires Handed(plan, praise, masses, next, rest, budgets, flows)
    ensures Get(next, t) == 0
  {
    HandedParts(plan, praise, masses, next, rest, budgets, flows);
    NothingHandedTo(plan, praise, budgets, flows, t);
    assert t !in rest;
  }

  lemma UnnamedStaysZero(plan: Plan, praise: map<nat, map<nat, int>>, before: map<nat, int>, masses: map<nat, int>,
                         t: nat)
    requires DistinctKeys(plan.prior) && plan.dampingDenominator > 0 && Unnamed(plan, praise, t)
    requires Moves(plan, praise, before, masses)
    ensures Get(masses, t) == 0
  {
    var rest, budgets, flows :| Handed(plan, praise, before, masses, rest, budgets, flows);
    UnnamedGetsNothing(plan, praise, before, masses, rest, budgets, flows, t);
  }

  lemma UnnamedStartsAtZero(plan: Plan, praise: map<nat, map<nat, int>>, masses: map<nat, int>, t: nat)
    requires DistinctKeys(plan.prior) && Unnamed(plan, praise, t) && Starts(plan, masses)
    ensures Get(masses, t) == 0
  {
    var first: map<nat, int> :| StartsWith(plan, first, masses);
    assert t !in first;
  }

  /** An agent that is no reviewer and that no positive included record names ends with nothing. */
  lemma UnpraisedEndsAtZero(policy: F.Policy, records: seq<F.Feedback>, plan: Plan, masses: map<nat, int>, t: nat)
    requires DistinctKeys(plan.prior) && plan.dampingDenominator > 0 && t !in Reviewers(plan)
    requires forall r :: F.Speaks(policy, Reviewers(plan), records, r) && r.target == t ==> r.value <= 0
    requires FromFeedback(policy, records, plan, masses)
    ensures Get(masses, t) == 0
  {
    var included, praise :| FromPraise(policy, records, plan, masses, included, praise);
    UnpraisedIsUnnamed(policy, records, plan, included, praise, t);
    var trail :| |trail| == plan.iterations + 1 && Follows(plan, praise, trail) && trail[plan.iterations] == masses;
    if plan.iterations == 0 {
      UnnamedStartsAtZero(plan, praise, trail[0], t);
    } else {
      UnnamedStaysZero(plan, praise, trail[plan.iterations - 1], trail[plan.iterations], t);
    }
  }

  lemma SpokenPraise(policy: F.Policy, records: seq<F.Feedback>, plan: Plan, included: seq<F.Feedback>,
                     praise: map<nat, map<nat, int>>, v: nat, t: nat)
    returns (r: F.Feedback)
    requires PraiseOf(included, praise) && v in praise && t in praise[v]
    requires F.IsIncluded(policy, Reviewers(plan), records, included)
    ensures F.Speaks(policy, Reviewers(plan), records, r) && r.target == t && r.value > 0
  {
    assert Praises(included, v, t, praise[v][t]);
    r :| r in included && r.reviewer == Some(v) && r.target == t && r.value == praise[v][t];
  }

  lemma PriorIsReviewers(plan: Plan, t: nat)
    requires DistinctKeys(plan.prior) && t in Prior(plan)
    ensures t in Reviewers(plan)
  {
    var i :| 0 <= i < |plan.prior| && plan.prior[i].key == t;
    assert plan.prior[i] in plan.prior;
  }

  lemma UnpraisedIsUnnamed(policy: F.Policy, records: seq<F.Feedback>, plan: Plan, included: seq<F.Feedback>,
                           praise: map<nat, map<nat, int>>, t: nat)
    requires DistinctKeys(plan.prior) && t !in Reviewers(plan) && PraiseOf(included, praise)
    requires F.IsIncluded(policy, Reviewers(plan), records, included)
    requires forall r :: F.Speaks(policy, Reviewers(plan), records, r) && r.target == t ==> r.value <= 0
    ensures Unnamed(plan, praise, t)
  {
    if t in Prior(plan) { PriorIsReviewers(plan, t); }
    forall v | v in praise ensures t !in praise[v] {
      if t in praise[v] { var r := SpokenPraise(policy, records, plan, included, praise, v, t); }
    }
  }

  // ---- the law has one solution ----------------------------------------------------------

  lemma SameFlow(plan: Plan, praise: map<nat, map<nat, int>>, v: nat, budget: int, x: map<nat, int>, y: map<nat, int>)
    requires DistinctKeys(plan.prior) && PraiseNonNegative(praise) && budget >= 0
    requires Divides(budget, DividesBy(plan, praise, v), x) && Divides(budget, DividesBy(plan, praise, v), y)
    ensures x == y
  {
    DividesByNonNegative(plan, praise, v);
    DivisionUnique(budget, DividesBy(plan, praise, v), x, y);
  }

  lemma SameFlows(plan: Plan, praise: map<nat, map<nat, int>>, budgets: map<nat, int>, f: map<nat, map<nat, int>>,
                  g: map<nat, map<nat, int>>)
    requires DistinctKeys(plan.prior) && PraiseNonNegative(praise) && NonNegative(budgets)
    requires AllDivide(plan, praise, budgets, f) && AllDivide(plan, praise, budgets, g)
    ensures f == g
  {
    forall v | v in budgets.Keys ensures f[v] == g[v] { SameFlow(plan, praise, v, budgets[v], f[v], g[v]); }
    SameMaps(budgets.Keys, f, g);
  }

  lemma SameMaps<V(!new)>(keys: set<nat>, f: map<nat, V>, g: map<nat, V>)
    requires f.Keys == keys && g.Keys == keys && forall k :: k in keys ==> f[k] == g[k]
    ensures f == g
  {
  }

  lemma SameByPrior(plan: Plan, pool: int, x: map<nat, int>, y: map<nat, int>)
    requires Validated(plan) && pool >= 0 && Divides(pool, Prior(plan), x) && Divides(pool, Prior(plan), y)
    ensures x == y && NonNegative(x)
  {
    WeightsTotal(plan.prior);
    DivisionUnique(pool, Prior(plan), x, y);
    PartsNonNegative(pool, Prior(plan), x);
  }

  lemma SameBudgets(plan: Plan, masses: map<nat, int>, a: map<nat, int>, b: map<nat, int>)
    requires Validated(plan) && NonNegative(masses)
    requires Divides(Damped(plan), masses, a) && Divides(Damped(plan), masses, b)
    ensures a == b && NonNegative(a)
  {
    DampedWithin(plan);
    DivisionUnique(Damped(plan), masses, a, b);
    PartsNonNegative(Damped(plan), masses, a);
  }

  lemma SameNext(a: map<nat, int>, b: map<nat, int>, rest: map<nat, int>, flows: map<nat, map<nat, int>>)
    requires a.Keys == b.Keys && Sums(a, rest, flows) && Sums(b, rest, flows)
    ensures a == b
  {
  }

  /** `next` is made of these parts. */
  ghost predicate MadeOf(plan: Plan, praise: map<nat, map<nat, int>>, masses: map<nat, int>, next: map<nat, int>,
                         rest: map<nat, int>, budgets: map<nat, int>, flows: map<nat, map<nat, int>>)
    requires DistinctKeys(plan.prior) && plan.dampingDenominator > 0
  {
    && Divides(Undamped(plan), Prior(plan), rest) && Divides(Damped(plan), masses, budgets)
    && AllDivide(plan, praise, budgets, flows) && Sums(next, rest, flows) && next.Keys == masses.Keys
  }

  lemma MovesParts(plan: Plan, praise: map<nat, map<nat, int>>, masses: map<nat, int>, next: map<nat, int>)
    returns (rest: map<nat, int>, budgets: map<nat, int>, flows: map<nat, map<nat, int>>)
    requires DistinctKeys(plan.prior) && plan.dampingDenominator > 0 && Moves(plan, praise, masses, next)
    ensures MadeOf(plan, praise, masses, next, rest, budgets, flows)
  {
    rest, budgets, flows :| Handed(plan, praise, masses, next, rest, budgets, flows);
    HandedParts(plan, praise, masses, next, rest, budgets, flows);
  }

  lemma SameMove(plan: Plan, praise: map<nat, map<nat, int>>, budgets: map<nat, int>, rest: map<nat, int>,
                 f: map<nat, map<nat, int>>, g: map<nat, map<nat, int>>, a: map<nat, int>, b: map<nat, int>)
    requires DistinctKeys(plan.prior) && PraiseNonNegative(praise) && NonNegative(budgets) && NonNegative(rest)
    requires AllDivide(plan, praise, budgets, f) && AllDivide(plan, praise, budgets, g)
    requires a.Keys == b.Keys && Sums(a, rest, f) && Sums(b, rest, g)
    ensures a == b && NonNegative(a)
  {
    SameFlows(plan, praise, budgets, f, g);
    SameNext(a, b, rest, f);
    NextNonNegative(plan, praise, budgets, rest, f, a);
  }

  lemma SameRests(plan: Plan, praise: map<nat, map<nat, int>>, masses: map<nat, int>,
                  a: map<nat, int>, p: map<nat, int>, q: map<nat, int>, f: map<nat, map<nat, int>>,
                  b: map<nat, int>, s: map<nat, int>, t: map<nat, int>, g: map<nat, map<nat, int>>)
    requires Validated(plan) && NonNegative(masses)
    requires MadeOf(plan, praise, masses, a, p, q, f) && MadeOf(plan, praise, masses, b, s, t, g)
    ensures p == s && NonNegative(p)
  {
    DampedWithin(plan);
    SameByPrior(plan, Undamped(plan), p, s);
  }

  lemma SameShares(plan: Plan, praise: map<nat, map<nat, int>>, masses: map<nat, int>,
                  a: map<nat, int>, p: map<nat, int>, q: map<nat, int>, f: map<nat, map<nat, int>>,
                  b: map<nat, int>, s: map<nat, int>, t: map<nat, int>, g: map<nat, map<nat, int>>)
    requires Validated(plan) && NonNegative(masses)
    requires MadeOf(plan, praise, masses, a, p, q, f) && MadeOf(plan, praise, masses, b, s, t, g)
    ensures q == t && NonNegative(q)
  {
    SameBudgets(plan, masses, q, t);
  }

  lemma MovesUnique(plan: Plan, praise: map<nat, map<nat, int>>, masses: map<nat, int>, a: map<nat, int>,
                    b: map<nat, int>)
    requires Validated(plan) && PraiseNonNegative(praise) && NonNegative(masses)
    requires Moves(plan, praise, masses, a) && Moves(plan, praise, masses, b)
    ensures a == b && NonNegative(a)
  {
    var p, q, f := MovesParts(plan, praise, masses, a);
    var s, t, g := MovesParts(plan, praise, masses, b);
    SameRests(plan, praise, masses, a, p, q, f, b, s, t, g);
    SameShares(plan, praise, masses, a, p, q, f, b, s, t, g);
    SameMove(plan, praise, q, p, f, g, a, b);
  }

  lemma NextNonNegative(plan: Plan, praise: map<nat, map<nat, int>>, budgets: map<nat, int>, rest: map<nat, int>,
                        flows: map<nat, map<nat, int>>, next: map<nat, int>)
    requires DistinctKeys(plan.prior) && PraiseNonNegative(praise) && NonNegative(budgets) && NonNegative(rest)
    requires AllDivide(plan, praise, budgets, flows) && Sums(next, rest, flows)
    ensures NonNegative(next)
  {
    forall v | v in flows ensures NonNegative(flows[v]) {
      DividesByNonNegative(plan, praise, v);
      PartsNonNegative(budgets[v], DividesBy(plan, praise, v), flows[v]);
    }
    forall t | t in next ensures next[t] >= 0 { TotalNonNegative(HandedTo(flows, t)); }
  }

  ghost predicate OnKeys(first: map<nat, int>, keys: set<nat>, masses: map<nat, int>) {
    masses.Keys == keys && forall v :: v in masses ==> masses[v] == Get(first, v)
  }

  lemma StartParts(plan: Plan, masses: map<nat, int>) returns (first: map<nat, int>)
    requires DistinctKeys(plan.prior) && Starts(plan, masses)
    ensures Divides(plan.massScale, Prior(plan), first) && OnKeys(first, Nodes(plan), masses)
  {
    first :| StartsWith(plan, first, masses);
  }

  lemma SameOnKeys(first: map<nat, int>, keys: set<nat>, a: map<nat, int>, b: map<nat, int>)
    requires OnKeys(first, keys, a) && OnKeys(first, keys, b) && NonNegative(first)
    ensures a == b && NonNegative(a)
  {
  }

  lemma StartUnique(plan: Plan, a: map<nat, int>, b: map<nat, int>)
    requires Validated(plan) && Starts(plan, a) && Starts(plan, b)
    ensures a == b && NonNegative(a)
  {
    var x := StartParts(plan, a);
    var y := StartParts(plan, b);
    SameByPrior(plan, plan.massScale, x, y);
    SameOnKeys(x, Nodes(plan), a, b);
  }

  lemma {:induction false} TrailUnique(plan: Plan, praise: map<nat, map<nat, int>>, x: seq<map<nat, int>>,
                                       y: seq<map<nat, int>>, i: nat)
    requires Validated(plan) && PraiseNonNegative(praise) && i < |x| && i < |y|
    requires Follows(plan, praise, x) && Follows(plan, praise, y)
    ensures x[i] == y[i] && NonNegative(x[i])
  {
    if i == 0 {
      StartUnique(plan, x[0], y[0]);
    } else {
      TrailUnique(plan, praise, x, y, i - 1);
      MovesUnique(plan, praise, x[i - 1], x[i], y[i]);
    }
  }

  lemma PraiseUnique(included: seq<F.Feedback>, a: map<nat, map<nat, int>>, b: map<nat, map<nat, int>>)
    requires PraiseOf(included, a) && PraiseOf(included, b)
    ensures a == b
  {
    PraiseWithin(included, a, b);
    PraiseWithin(included, b, a);
    forall v | v in a ensures a[v] == b[v] {}
  }

  lemma PraiseWithin(included: seq<F.Feedback>, a: map<nat, map<nat, int>>, b: map<nat, map<nat, int>>)
    requires PraiseOf(included, a) && PraiseOf(included, b)
    ensures forall v :: v in a ==> v in b && forall t :: t in a[v] ==> t in b[v] && a[v][t] == b[v][t]
  {
    forall v, t | v in a && t in a[v] ensures v in b && t in b[v] && a[v][t] == b[v][t] {
      assert Praises(included, v, t, a[v][t]);
    }
    forall v | v in a ensures v in b {
      var t :| t in a[v];
    }
  }

  /** The law leaves no choice: the records determine the masses. */
  lemma FeedbackDecides(policy: F.Policy, records: seq<F.Feedback>, plan: Plan, a: map<nat, int>, b: map<nat, int>)
    requires F.UniqueIds(records) && Validated(plan)
    requires FromFeedback(policy, records, plan, a) && FromFeedback(policy, records, plan, b)
    ensures a == b
  {
    var x, p :| FromPraise(policy, records, plan, a, x, p);
    var y, q :| FromPraise(policy, records, plan, b, y, q);
    F.EnumerationIrrelevant(policy, Reviewers(plan), records, records, x, y);
    PraiseUnique(x, p, q);
    PraiseIsPositive(x, p);
    var s :| |s| == plan.iterations + 1 && Follows(plan, p, s) && s[plan.iterations] == a;
    var t :| |t| == plan.iterations + 1 && Follows(plan, p, t) && t[plan.iterations] == b;
    TrailUnique(plan, p, s, t, plan.iterations);
  }
}
