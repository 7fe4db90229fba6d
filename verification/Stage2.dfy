/** Budgeted, reputation-weighted valuation and the evaluator carve-out:
    `stage2` of crates/contributions-core/src/compute.rs. */
module Stage2 {
  import opened Totals
  import opened Ordering
  import opened FixedPoint
  import opened Grouping
  import opened Reconcile
  import opened Eligibility

  type Reputation = map<nat, int>

  datatype Weights = Weights(claimScores: map<nat, int>, contributorWeights: map<nat, int>, combinedWeights: map<nat,
    int>)

  // ---- budgets and claim scores ---------------------------------------------

  function BudgetPosting(): Valuation -> seq<Posting<nat>> { (v: Valuation) => [Posting(v.rater, v.score)] }

  /** What each rater's counting scores add up to. */
  function Budgets(vs: seq<Valuation>): map<nat, int> { Tally(Spread(BudgetPosting(), vs)) }

  /** One valuation's part of its rater's reputation, discounted after the budget. */
  function Contribution(rep: int, score: int, budget: int, discount: int): int
    requires budget > 0
  {
    FpMul(FpMul(rep, score * S / budget), discount)
  }

  /** A rater without a positive budget allocates nothing. */
  function ScorePosting(rep: Reputation, budgets: map<nat, int>): Valuation -> seq<Posting<nat>>
  {
    (v: Valuation) =>
      if Get(budgets, v.rater) <= 0 then []
      else [Posting(v.claim, Contribution(Get(rep, v.rater), v.score, Get(budgets, v.rater), v.discount))]
  }

  function ScorePostings(vs: seq<Valuation>, rep: Reputation): seq<Posting<nat>>
  {
    Spread(ScorePosting(rep, Budgets(vs)), vs)
  }

  function ClaimScores(vs: seq<Valuation>, rep: Reputation): map<nat, int> { Tally(ScorePostings(vs, rep)) }

  // ---- contributor weights -----------------------------------------------------

  /** Shares that add up to the positive total of a live claim. */
  ghost predicate SoundClaim(claim: LiveClaim) {
    claim.totalShares == Total(claim.shares) > 0 && forall a :: a in claim.shares ==> claim.shares[a] >= 0
  }

  /** The division by the total, which is positive in a live claim. */
  function Attribution(share: int, total: int): int { if total == 0 then 0 else FloorDiv(share * S, total) }

  function WeightAmount(state: LiveState, rules: Rules, claim: LiveClaim, score: int, a: nat): int
    requires a in claim.shares
  {
    FpMul(FpMul(score, Attribution(claim.shares[a], claim.totalShares)),
      Consent(state, claim, a, S, rules.unacceptedMult))
  }

  function WeightPosting(state: LiveState, rules: Rules, claim: LiveClaim, score: int): nat -> seq<Posting<nat>>
  {
    a => if a in claim.shares then NonZero(Posting(a, WeightAmount(state, rules, claim, score, a))) else []
  }

  /** What one scored claim posts to its contributors. */
  function ClaimPosting(state: LiveState, rules: Rules, scores: map<nat, int>): nat -> seq<Posting<nat>>
  {
    uid =>
      if uid !in scores || scores[uid] == 0 || uid !in state.claims then []
      else Spread(WeightPosting(state, rules, state.claims[uid], scores[uid]),
        AscendingNats(state.claims[uid].shares.Keys))
  }

  function WeightPostings(state: LiveState, rules: Rules, scores: map<nat, int>): seq<Posting<nat>>
  {
    Spread(ClaimPosting(state, rules, scores), AscendingNats(scores.Keys))
  }

  function ContributorWeights(state: LiveState, rules: Rules, scores: map<nat, int>): map<nat, int>
  {
    Tally(WeightPostings(state, rules, scores))
  }

  // ---- the carve-out --------------------------------------------------------------

  /** The evaluators' fraction; more than the whole counts as the whole. */
  function Beta(bps: nat): (r: int)
    ensures 0 <= r <= S
  {
    if S * bps / 10_000 > S then S else S * bps / 10_000
  }

  /** A side's amount in proportion to its own mass; a side without mass gets nothing. */
  function SidePosting(mass: map<nat, int>, total: int, amount: int): nat -> seq<Posting<nat>>
  {
    a => if a !in mass || total <= 0 then [] else NonZero(Posting(a, mass[a] * amount / total))
  }

  ghost function Side(mass: map<nat, int>, amount: int): seq<Posting<nat>>
  {
    Spread(SidePosting(mass, Total(mass), amount), AscendingNats(mass.Keys))
  }

  function Standing(rep: Reputation, raters: set<nat>): (r: map<nat, int>)
    ensures r.Keys == raters
  {
    map r | r in raters :: Get(rep, r)
  }

  ghost function Combined(weights: map<nat, int>, standing: map<nat, int>, beta: int): map<nat, int>
  {
    if beta == 0 then Tally(Side(weights, S - beta)) else Tally(Side(weights, S - beta) + Side(standing, beta))
  }

  ghost function Scored(state: LiveState, rep: Reputation, vs: seq<Valuation>, raters: set<nat>, rules: Rules): Weights
  {
    var scores := ClaimScores(vs, rep);
    var weights := ContributorWeights(state, rules, scores);
    Weights(scores, weights, Combined(weights, Standing(rep, raters), Beta(rules.carveoutBps)))
  }

  // ---- the loops -------------------------------------------------------------------

  method AddBudgets(vs: seq<Valuation>) returns (budgets: map<nat, int>)
    ensures budgets == Budgets(vs)
  {
    budgets := map[];
    TalliedStart(budgets, [], BudgetPosting(), vs);
    for i := 0 to |vs|
      invariant Tallied(budgets, [], BudgetPosting(), vs[..i])
    {
      TalliedStep(budgets, [], BudgetPosting(), vs, i);
      budgets := Post(budgets, Posting(vs[i].rater, vs[i].score));
    }
    TalliedDone(budgets, [], BudgetPosting(), vs);
  }

  lemma {:induction false} BudgetsNonNegative(vs: seq<Valuation>, r: nat)
    ensures Get(Budgets(vs), r) >= 0
    ensures forall i :: 0 <= i < |vs| && vs[i].rater == r && vs[i].score > 0 ==> Get(Budgets(vs), r) > 0
  {
    if vs != [] {
      var n := |vs| - 1;
      BudgetsNonNegative(vs[..n], r);
      SpreadSnoc(BudgetPosting(), vs, n);
      assert vs[..n + 1] == vs;
      TallySnoc(Spread(BudgetPosting(), vs[..n]), Posting(vs[n].rater, vs[n].score));
    }
  }

  lemma ScorePostingAt(rep: Reputation, budgets: map<nat, int>, v: Valuation)
    ensures Get(budgets, v.rater) <= 0 ==> ScorePosting(rep, budgets)(v) == []
    ensures Get(budgets, v.rater) > 0 ==> (ScorePosting(rep, budgets)(v)
      == [Posting(v.claim, Contribution(Get(rep, v.rater), v.score, Get(budgets, v.rater), v.discount))])
  {
  }

  method AddScores(vs: seq<Valuation>, rep: Reputation, budgets: map<nat, int>) returns (scores: map<nat, int>)
    requires budgets == Budgets(vs)
    ensures scores == ClaimScores(vs, rep)
  {
    ghost var f := ScorePosting(rep, budgets);
    scores := map[];
    TalliedStart(scores, [], f, vs);
    for i := 0 to |vs|
      invariant Tallied(scores, [], f, vs[..i])
    {
      var v := vs[i];
      TalliedStep(scores, [], f, vs, i);
      ScorePostingAt(rep, budgets, v);
      BudgetsNonNegative(vs, v.rater);
      var budget := Get(budgets, v.rater);
      if budget != 0 {
        var sigma := v.score * S / budget;
        var contribution := FpMul(FpMul(Get(rep, v.rater), sigma), v.discount);
        scores := Post(scores, Posting(v.claim, contribution));
      }
    }
    TalliedDone(scores, [], f, vs);
  }

  lemma WeightPostingAt(state: LiveState, rules: Rules, claim: LiveClaim, score: int, a: nat)
    requires a in claim.shares
    ensures WeightPosting(state, rules, claim, score)(a) ==
      if WeightAmount(state, rules, claim, score, a)
        == 0 then [] else [Posting(a, WeightAmount(state, rules, claim, score, a))]
  {
  }

  /** The inner loop over the contributors of one claim. */
  method AddClaimWeights(weights: map<nat, int>, ghost base: seq<Posting<nat>>, state: LiveState, rules: Rules,
                         claim: LiveClaim, score: int, contributors: seq<nat>)
    returns (r: map<nat, int>)
    requires weights == Tally(base) && forall i :: 0 <= i < |contributors| ==> contributors[i] in claim.shares
    ensures r == Tally(base + Spread(WeightPosting(state, rules, claim, score), contributors))
  {
    ghost var f := WeightPosting(state, rules, claim, score);
    r := weights;
    TalliedStart(r, base, f, contributors);
    for i := 0 to |contributors|
      invariant Tallied(r, base, f, contributors[..i])
    {
      var a := contributors[i];
      TalliedStep(r, base, f, contributors, i);
      WeightPostingAt(state, rules, claim, score, a);
      var attrib := Attribution(claim.shares[a], claim.totalShares);
      var consent := Consent(state, claim, a, S, rules.unacceptedMult);
      var w := FpMul(FpMul(score, attrib), consent);
      if w != 0 { r := Post(r, Posting(a, w)); }
    }
    TalliedDone(r, base, f, contributors);
  }

  lemma NothingAfter<K>(ps: seq<Posting<K>>)
    ensures ps + [] == ps
  {
  }

  method AddWeights(state: LiveState, rules: Rules, scores: map<nat, int>) returns (weights: map<nat, int>)
    requires scores.Keys <= state.claims.Keys
    ensures weights == ContributorWeights(state, rules, scores)
  {
    ghost var f := ClaimPosting(state, rules, scores);
    var uids := AscendingNats(scores.Keys);
    weights := map[];
    for i := 0 to |uids|
      invariant weights == Tally(Spread(f, uids[..i]))
    {
      var uid := uids[i];
      SpreadSnoc(f, uids, i);
      if scores[uid] == 0 {
        NothingAfter(Spread(f, uids[..i]));
      } else {
        var claim := state.claims[uid];
        weights := AddClaimWeights(weights, Spread(f, uids[..i]), state, rules, claim, scores[uid],
          AscendingNats(claim.shares.Keys));
      }
    }
    assert uids[..|uids|] == uids;
  }

  lemma SidePostingAt(mass: map<nat, int>, total: int, amount: int, a: nat)
    requires a in mass && total > 0
    ensures SidePosting(mass, total, amount)(a) ==
      if mass[a] * amount / total == 0 then [] else [Posting(a, mass[a] * amount / total)]
  {
  }

  /** The loop of one side of the carve-out. */
  method AddSide(combined: map<nat, int>, ghost base: seq<Posting<nat>>, mass: map<nat, int>, total: int, amount: int,
                 accounts: seq<nat>)
    returns (r: map<nat, int>)
    requires combined == Tally(base) && total > 0 && forall i :: 0 <= i < |accounts| ==> accounts[i] in mass
    ensures r == Tally(base + Spread(SidePosting(mass, total, amount), accounts))
  {
    ghost var f := SidePosting(mass, total, amount);
    r := combined;
    TalliedStart(r, base, f, accounts);
    for i := 0 to |accounts|
      invariant Tallied(r, base, f, accounts[..i])
    {
      var a := accounts[i];
      TalliedStep(r, base, f, accounts, i);
      SidePostingAt(mass, total, amount, a);
      var share := mass[a] * amount / total;
      if share != 0 { r := Post(r, Posting(a, share)); }
    }
    TalliedDone(r, base, f, accounts);
  }

  lemma {:induction false} NoPostings(mass: map<nat, int>, total: int, amount: int, accounts: seq<nat>)
    requires total <= 0
    ensures Spread(SidePosting(mass, total, amount), accounts) == []
  {
    if accounts != [] { NoPostings(mass, total, amount, accounts[..|accounts| - 1]); }
  }

  /** One side of the carve-out; a side without mass adds nothing. */
  method CombineSide(combined: map<nat, int>, ghost base: seq<Posting<nat>>, mass: map<nat, int>, amount: int)
    returns (r: map<nat, int>)
    requires combined == Tally(base) && forall a :: a in mass ==> mass[a] >= 0
    ensures r == Tally(base + Side(mass, amount))
  {
    TotalNonNegative(mass);
    var total := AddTotal(mass);
    if total == 0 {
      NoPostings(mass, total, amount, AscendingNats(mass.Keys));
      assert base + [] == base;
      return combined;
    }
    r := AddSide(combined, base, mass, total, amount, AscendingNats(mass.Keys));
  }

  lemma NothingBefore<K>(ps: seq<Posting<K>>)
    ensures [] + ps == ps
  {
  }

  method Combine(weights: map<nat, int>, standing: map<nat, int>, beta: int) returns (combined: map<nat, int>)
    requires NonNegative(weights) && NonNegative(standing)
    ensures combined == Combined(weights, standing, beta)
  {
    ghost var side := Side(weights, S - beta);
    combined := CombineSide(map[], [], weights, S - beta);
    NothingBefore(side);
    if beta != 0 { combined := CombineSide(combined, side, standing, beta); }
  }

  lemma {:induction false} ScoreKeys(vs: seq<Valuation>, rep: Reputation, uid: nat)
    requires uid in ClaimScores(vs, rep)
    ensures exists i :: 0 <= i < |vs| && vs[i].claim == uid
  {
    ScoreKeysFrom(vs, rep, Budgets(vs), uid);
  }

  lemma {:induction false} ScoreKeysFrom(vs: seq<Valuation>, rep: Reputation, budgets: map<nat, int>, uid: nat)
    requires uid in Tally(Spread(ScorePosting(rep, budgets), vs))
    ensures exists i :: 0 <= i < |vs| && vs[i].claim == uid
  {
    if vs != [] {
      var n := |vs| - 1;
      var f := ScorePosting(rep, budgets);
      ScorePostingAt(rep, budgets, vs[n]);
      if f(vs[n]) == [] {
        assert Spread(f, vs[..n]) + [] == Spread(f, vs[..n]);
      } else {
        TallySnoc(Spread(f, vs[..n]), f(vs[n])[0]);
      }
      if vs[n].claim != uid {
        ScoreKeysFrom(vs[..n], rep, budgets, uid);
        var i :| 0 <= i < |vs[..n]| && vs[..n][i].claim == uid;
        assert vs[i].claim == uid;
      }
    }
  }

  lemma ScoresGrounded(state: LiveState, rep: Reputation, rules: Rules)
    ensures ClaimScores(Eligible(state, rep, rules), rep).Keys <= state.claims.Keys
  {
    var vs := Eligible(state, rep, rules);
    EligibleKeysPass(state, rep, rules);
    forall c | c in ClaimScores(vs, rep) ensures c in state.claims {
      ScoreKeys(vs, rep, c);
      var i :| 0 <= i < |vs| && vs[i].claim == c;
      assert Passes(state, rep, rules, EligibleKeys(state, rep, rules)[i]);
    }
  }

  /** `stage2`. */
  method ScoreEligible(state: LiveState, rep: Reputation, vs: seq<Valuation>, raters: set<nat>, rules: Rules)
    returns (w: Weights)
    requires SoundState(state) && NonNegative(rep) && ClaimScores(vs, rep).Keys <= state.claims.Keys
    ensures w == Scored(state, rep, vs, raters, rules)
  {
    var budgets := AddBudgets(vs);
    var scores := AddScores(vs, rep, budgets);
    var weights := AddWeights(state, rules, scores);
    WeightsNonNegative(state, rules, vs, rep);
    var combined := Combine(weights, Standing(rep, raters), Beta(rules.carveoutBps));
    w := Weights(scores, weights, combined);
  }

  /** `stage2`, on what `eligibility` decided. */
  method RunStage2(state: LiveState, rep: Reputation, rules: Rules) returns (w: Weights)
    requires SoundState(state) && NonNegative(rep)
    ensures w == Scored(state, rep, Eligible(state, rep, rules), Participants(state, rep, rules), rules)
  {
    var vs, raters := DecideEligibility(state, rep, rules);
    ScoresGrounded(state, rep, rules);
    w := ScoreEligible(state, rep, vs, raters, rules);
  }

  // ---- nothing is negative -----------------------------------------------------------

  lemma TallyNonNegative(ps: seq<Posting<nat>>)
    requires NonNegativeAmounts(ps)
    ensures NonNegative(Tally(ps))
  {
    forall k | k in Tally(ps) ensures Tally(ps)[k] >= 0 {
      TallyAt(ps, k);
      AmountAtNonNegative(ps, k);
    }
  }

  lemma {:induction false} SpreadNonNegative<T>(f: T -> seq<Posting<nat>>, s: seq<T>)
    requires forall i :: 0 <= i < |s| ==> NonNegativeAmounts(f(s[i]))
    ensures NonNegativeAmounts(Spread(f, s))
  {
    if s != [] { SpreadNonNegative(f, s[..|s| - 1]); }
  }

  lemma ContributionNonNegative(rep: int, score: nat, budget: int, discount: nat)
    requires rep >= 0 && budget > 0
    ensures Contribution(rep, score, budget, discount) >= 0
  {
    assert score * S / budget >= 0 by { DivisionMonotone(0, score * S, budget); }
    FpMulNonNegative(rep, score * S / budget);
    FpMulNonNegative(FpMul(rep, score * S / budget), discount);
  }

  lemma ScoresNonNegative(vs: seq<Valuation>, rep: Reputation, budgets: map<nat, int>)
    requires NonNegative(rep)
    ensures NonNegativeAmounts(Spread(ScorePosting(rep, budgets), vs))
  {
    forall i | 0 <= i < |vs| ensures NonNegativeAmounts(ScorePosting(rep, budgets)(vs[i])) {
      ScorePostingAt(rep, budgets, vs[i]);
      if Get(budgets, vs[i].rater) > 0 {
        ContributionNonNegative(Get(rep, vs[i].rater), vs[i].score, Get(budgets, vs[i].rater), vs[i].discount);
      }
    }
    SpreadNonNegative(ScorePosting(rep, budgets), vs);
  }

  lemma WeightNonNegative(state: LiveState, rules: Rules, claim: LiveClaim, score: int, a: nat)
    requires a in claim.shares && claim.shares[a] >= 0 && claim.totalShares > 0 && score >= 0
    ensures WeightAmount(state, rules, claim, score, a) >= 0
  {
    assert Attribution(claim.shares[a], claim.totalShares) >= 0 by {
      DivisionMonotone(0, claim.shares[a] * S, claim.totalShares);
    }
    FpMulNonNegative(score, Attribution(claim.shares[a], claim.totalShares));
    FpMulNonNegative(FpMul(score, Attribution(claim.shares[a], claim.totalShares)),
      Consent(state, claim, a, S, rules.unacceptedMult));
  }

  lemma ClaimWeightsNonNegative(state: LiveState, rules: Rules, claim: LiveClaim, score: int, contributors: seq<nat>)
    requires SoundClaim(claim) && score >= 0 && forall i :: 0 <= i < |contributors| ==> contributors[i] in claim.shares
    ensures NonNegativeAmounts(Spread(WeightPosting(state, rules, claim, score), contributors))
  {
    forall i | 0 <= i < |contributors|
      ensures NonNegativeAmounts(WeightPosting(state, rules, claim, score)(contributors[i]))
    {
      WeightPostingAt(state, rules, claim, score, contributors[i]);
      WeightNonNegative(state, rules, claim, score, contributors[i]);
    }
    SpreadNonNegative(WeightPosting(state, rules, claim, score), contributors);
  }

  ghost predicate SoundState(state: LiveState) {
    Grounded(state) && forall c :: c in state.claims ==> SoundClaim(state.claims[c])
  }

  lemma WeightsNonNegative(state: LiveState, rules: Rules, vs: seq<Valuation>, rep: Reputation)
    requires SoundState(state) && NonNegative(rep)
    ensures NonNegative(ClaimScores(vs, rep)) && NonNegative(ContributorWeights(state, rules, ClaimScores(vs, rep)))
  {
    var scores := ClaimScores(vs, rep);
    ScoresNonNegative(vs, rep, Budgets(vs));
    TallyNonNegative(ScorePostings(vs, rep));
    var uids := AscendingNats(scores.Keys);
    forall i | 0 <= i < |uids| ensures NonNegativeAmounts(ClaimPosting(state, rules, scores)(uids[i])) {
      if uids[i] in state.claims {
        var claim := state.claims[uids[i]];
        ClaimWeightsNonNegative(state, rules, claim, scores[uids[i]], AscendingNats(claim.shares.Keys));
      }
    }
    SpreadNonNegative(ClaimPosting(state, rules, scores), uids);
    TallyNonNegative(WeightPostings(state, rules, scores));
  }
}
