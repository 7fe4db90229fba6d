/** How the pool is split between contributors and evaluators: crates/contributions-core/src/compute.rs:230-262. */
module CarveOut {
  import opened Totals
  import opened Ordering
  import opened FixedPoint
  import opened Grouping
  import opened Reconcile
  import opened Eligibility
  import opened Stage2
  import opened Stage2Bounds
  import opened Payout

  /** A basis point of the scale. */
  const POINT := 100_000_000_000_000

  lemma PointsOfScale(bps: int)
    ensures S * bps == 10_000 * (POINT * bps) && S * bps / 10_000 == POINT * bps
  {
    var points := POINT * bps;
    assert S * bps == 10_000 * points;
  }

  /** The evaluators' fraction is exact, and more than the whole is the whole. */
  lemma EvaluatorFraction(bps: nat)
    ensures bps <= 10_000 ==> 10_000 * Beta(bps) == S * bps
    ensures bps >= 10_000 ==> Beta(bps) == S
  {
    PointsOfScale(bps);
  }

  /** One account's part of a side, nothing where the side has no mass. */
  ghost function SidePart(mass: map<nat, int>, amount: int, a: nat): int
  {
    if a in mass && Total(mass) > 0 then mass[a] * amount / Total(mass) else 0
  }

  lemma {:induction false} SideAt(mass: map<nat, int>, total: int, amount: int, accounts: seq<nat>, a: nat)
    requires Distinct(accounts) && total > 0 && forall i :: 0 <= i < |accounts| ==> accounts[i] in mass
    ensures AmountAt(Spread(SidePosting(mass, total, amount), accounts), a)
      == if a in accounts then mass[a] * amount / total else 0
  {
    var f := SidePosting(mass, total, amount);
    if accounts == [] {
      assert AmountsAt<nat>([], a) == [];
    } else {
      var n := |accounts| - 1;
      SideAt(mass, total, amount, accounts[..n], a);
      AmountAtConcat(Spread(f, accounts[..n]), f(accounts[n]), a);
      NonZeroAmount(Posting(accounts[n], mass[accounts[n]] * amount / total), a);
      assert accounts == accounts[..n] + [accounts[n]];
    }
  }

  lemma SideGives(mass: map<nat, int>, amount: int, a: nat)
    ensures AmountAt(Side(mass, amount), a) == SidePart(mass, amount, a)
  {
    var accounts, total := AscendingNats(mass.Keys), Total(mass);
    AscendingNatsMembers(mass.Keys);
    if total <= 0 {
      NoPostings(mass, total, amount, accounts);
      assert AmountsAt<nat>([], a) == [];
    } else {
      SideAt(mass, total, amount, accounts, a);
    }
  }

  lemma NoEvaluators(standing: map<nat, int>, a: nat)
    ensures SidePart(standing, 0, a) == 0
  {
    if a in standing && Total(standing) > 0 { assert standing[a] * 0 == 0; }
  }

  lemma BothSides(a: seq<Posting<nat>>, b: seq<Posting<nat>>, k: nat)
    ensures Get(Tally(a), k) == AmountAt(a, k) && Get(Tally(a + b), k) == AmountAt(a, k) + AmountAt(b, k)
  {
    TallyAt(a, k);
    TallyAt(a + b, k);
    AmountAtConcat(a, b, k);
  }

  lemma CombinedSides(weights: map<nat, int>, standing: map<nat, int>, beta: int, a: nat)
    ensures Get(Combined(weights, standing, beta), a) == AmountAt(Side(weights, S - beta), a)
      + (if beta == 0 then 0 else AmountAt(Side(standing, beta), a))
  {
    BothSides(Side(weights, S - beta), Side(standing, beta), a);
  }

  lemma ContributorsAt(weights: map<nat, int>, beta: int, a: nat, part: int)
    requires part == SidePart(weights, S - beta, a)
    ensures AmountAt(Side(weights, S - beta), a) == part
  {
    SideGives(weights, S - beta, a);
  }

  lemma EvaluatorsAt(standing: map<nat, int>, beta: int, a: nat, part: int)
    requires part == SidePart(standing, beta, a)
    ensures (if beta == 0 then 0 else AmountAt(Side(standing, beta), a)) == part
  {
    SideGives(standing, beta, a);
    if beta == 0 { NoEvaluators(standing, a); }
  }

  lemma CombinedParts(weights: map<nat, int>, standing: map<nat, int>, beta: int, a: nat, x: int, y: int)
    requires AmountAt(Side(weights, S - beta), a) == x
    requires (if beta == 0 then 0 else AmountAt(Side(standing, beta), a)) == y
    ensures Get(Combined(weights, standing, beta), a) == x + y
  {
    CombinedSides(weights, standing, beta, a);
  }

  /** Every account receives its part of the contributors' side and its part of the evaluators' side. */
  lemma CombinedIs(weights: map<nat, int>, standing: map<nat, int>, beta: int, a: nat, x: int, y: int)
    requires x == SidePart(weights, S - beta, a) && y == SidePart(standing, beta, a)
    ensures Get(Combined(weights, standing, beta), a) == x + y
  {
    ContributorsAt(weights, beta, a, x);
    EvaluatorsAt(standing, beta, a, y);
    CombinedParts(weights, standing, beta, a, x, y);
  }

  /** With mass on their side the evaluators together receive their fraction but for less than one unit each. */
  lemma EvaluatorsReceive(standing: map<nat, int>, bps: nat)
    requires NonNegative(standing) && Total(standing) > 0 && bps <= 10_000
    ensures S * bps - 10_000 * |standing.Keys| < 10_000 * Posted(Side(standing, Beta(bps))) <= S * bps
  {
    EvaluatorFraction(bps);
    SideBounds(standing, Beta(bps));
  }

  /** The participants with their reputation. */
  ghost predicate ReputationOf(rep: Reputation, raters: set<nat>, standing: map<nat, int>) {
    standing.Keys == raters && forall r :: r in raters ==> standing[r] == Get(rep, r)
  }

  lemma StandingIs(rep: Reputation, raters: set<nat>, standing: map<nat, int>)
    requires ReputationOf(rep, raters, standing)
    ensures Standing(rep, raters) == standing
  {
  }

  /** In the result of a round every account receives its part of the contributors' side, by its weight, and of the
      evaluators' side, by its reputation if it took part. */
  lemma RoundCombined(state: LiveState, rep: Reputation, vs: seq<Valuation>, raters: set<nat>, rules: Rules,
                      standing: map<nat, int>, a: nat, x: int, y: int)
    requires ReputationOf(rep, raters, standing)
    requires x == SidePart(Scored(state, rep, vs, raters, rules).contributorWeights, S - Beta(rules.carveoutBps), a)
    requires y == SidePart(standing, Beta(rules.carveoutBps), a)
    ensures Get(Scored(state, rep, vs, raters, rules).combinedWeights, a) == x + y
  {
    StandingIs(rep, raters, standing);
    CombinedIs(ContributorWeights(state, rules, ClaimScores(vs, rep)), standing, Beta(rules.carveoutBps), a, x, y);
  }
}
