/** What stage 2 can at most give away, and what one rater can move. */
module Stage2Bounds {
  import opened Totals
  import opened Ordering
  import opened FixedPoint
  import opened Grouping
  import opened Reconcile
  import opened Eligibility
  import opened Stage2

  /** Both multipliers are fractions. */
  ghost predicate Fractional(rules: Rules) { rules.collaboratorMult <= S && rules.unacceptedMult <= S }

  ghost predicate Discounted(vs: seq<Valuation>) { forall i :: 0 <= i < |vs| ==> vs[i].discount <= S }

  function RaterOf(): Valuation -> nat { (v: Valuation) => v.rater }

  function Mine(vs: seq<Valuation>, r: nat): seq<Valuation> { Filter(InGroup(RaterOf(), r), vs) }

  function Others(vs: seq<Valuation>, r: nat): seq<Valuation> { Filter(Not(InGroup(RaterOf(), r)), vs) }

  // ---- one rater's budget ------------------------------------------------------

  function ScoresOf(vs: seq<Valuation>): seq<int> { seq(|vs|, i requires 0 <= i < |vs| => vs[i].score) }

  ghost predicate AllBy(vs: seq<Valuation>, r: nat) { forall i :: 0 <= i < |vs| ==> vs[i].rater == r }

  ghost predicate NoneBy(vs: seq<Valuation>, r: nat) { forall i :: 0 <= i < |vs| ==> vs[i].rater != r }

  lemma MineIsBy(vs: seq<Valuation>, r: nat)
    ensures AllBy(Mine(vs, r), r) && NoneBy(Others(vs, r), r)
    ensures forall v :: v in Mine(vs, r) || v in Others(vs, r) ==> v in vs
  {
    FilterMembers(InGroup(RaterOf(), r), vs);
    FilterMembers(Not(InGroup(RaterOf(), r)), vs);
    forall i | 0 <= i < |Mine(vs, r)| ensures Mine(vs, r)[i].rater == r { assert Mine(vs, r)[i] in Mine(vs, r); }
    forall i | 0 <= i < |Others(vs, r)|
      ensures Others(vs, r)[i].rater != r
    {
      assert Others(vs, r)[i] in Others(vs, r);
    }
  }

  lemma {:induction false} OwnBudget(vs: seq<Valuation>, r: nat)
    requires AllBy(vs, r)
    ensures AmountAt(Spread(BudgetPosting(), vs), r) == Sum(ScoresOf(vs))
  {
    if vs == [] {
      assert AmountsAt<nat>([], r) == [];
    } else {
      var n := |vs| - 1;
      OwnBudget(vs[..n], r);
      assert ScoresOf(vs)[..n] == ScoresOf(vs[..n]);
      AmountAtSnoc(Spread(BudgetPosting(), vs[..n]), Posting(vs[n].rater, vs[n].score), r);
    }
  }

  lemma {:induction false} OthersBudget(vs: seq<Valuation>, r: nat)
    requires NoneBy(vs, r)
    ensures AmountAt(Spread(BudgetPosting(), vs), r) == 0
  {
    if vs == [] {
      assert AmountsAt<nat>([], r) == [];
    } else {
      var n := |vs| - 1;
      OthersBudget(vs[..n], r);
      AmountAtSnoc(Spread(BudgetPosting(), vs[..n]), Posting(vs[n].rater, vs[n].score), r);
    }
  }

  /** A budget is the sum of the rater's own counting scores. */
  lemma BudgetIsSum(vs: seq<Valuation>, r: nat)
    ensures Get(Budgets(vs), r) == Sum(ScoresOf(Mine(vs, r)))
  {
    TallyAt(Spread(BudgetPosting(), vs), r);
    SpreadSplit(BudgetPosting(), InGroup(RaterOf(), r), vs, r);
    MineIsBy(vs, r);
    OwnBudget(Mine(vs, r), r);
    OthersBudget(Others(vs, r), r);
  }

  // ---- no rater gives more than its reputation -----------------------------------

  lemma ContributionAtMost(rep: int, score: nat, budget: int, discount: nat)
    requires rep >= 0 && budget > 0 && discount <= S
    ensures Contribution(rep, score, budget, discount) <= FpMul(rep, score * S / budget)
  {
    assert score * S / budget >= 0 by { DivisionMonotone(0, score * S, budget); }
    FpMulNonNegative(rep, score * S / budget);
    FpMulShrinks(FpMul(rep, score * S / budget), discount);
  }

  lemma PostedNone<K>()
    ensures Posted<K>([]) == 0
  {
    assert Amounts<K>([]) == [];
  }

  ghost function Caps(rep: int, vs: seq<Valuation>, budget: int): seq<int>
  {
    if budget <= 0 then seq(|vs|, _ => 0) else Products(rep, Ratios(ScoresOf(vs), budget))
  }

  lemma CapAt(rep: Reputation, budgets: map<nat, int>, vs: seq<Valuation>, r: nat, i: nat)
    requires i < |vs| && AllBy(vs, r) && Get(rep, r) >= 0 && vs[i].discount <= S
    ensures |Caps(Get(rep, r), vs, Get(budgets, r))| == |vs|
    ensures Posted(ScorePosting(rep, budgets)(vs[i])) <= Caps(Get(rep, r), vs, Get(budgets, r))[i]
  {
    ScorePostingAt(rep, budgets, vs[i]);
    PostedNone<nat>();
    var budget := Get(budgets, r);
    if budget > 0 {
      ContributionAtMost(Get(rep, r), vs[i].score, budget, vs[i].discount);
      PostedSingle(Posting(vs[i].claim, Contribution(Get(rep, r), vs[i].score, budget, vs[i].discount)));
    }
  }

  lemma CapsWithin(rep: int, vs: seq<Valuation>, budget: int)
    requires rep >= 0 && budget == Sum(ScoresOf(vs))
    ensures Sum(Caps(rep, vs, budget)) <= rep
  {
    if budget <= 0 {
      SumConstant(Caps(rep, vs, budget), 0);
    } else {
      RatiosAtMostOne(ScoresOf(vs), budget);
      SplitAtMost(rep, Ratios(ScoresOf(vs), budget));
    }
  }

  /** However a rater spreads its scores, its contributions together stay within its reputation. */
  lemma RaterWithinReputation(vs: seq<Valuation>, rep: Reputation, r: nat)
    requires Discounted(vs) && Get(rep, r) >= 0
    ensures Posted(Spread(ScorePosting(rep, Budgets(vs)), Mine(vs, r))) <= Get(rep, r)
  {
    var mine, budgets := Mine(vs, r), Budgets(vs);
    MineIsBy(vs, r);
    BudgetIsSum(vs, r);
    var caps := Caps(Get(rep, r), mine, Get(budgets, r));
    forall i | 0 <= i < |mine| ensures Posted(ScorePosting(rep, budgets)(mine[i])) <= caps[i] {
      assert mine[i] in vs;
      CapAt(rep, budgets, mine, r, i);
    }
    SpreadBound(ScorePosting(rep, budgets), mine, caps);
    CapsWithin(Get(rep, r), mine, Get(budgets, r));
  }

  /** The claim scores together stay within the reputation of those who took part. */
  lemma ScoresWithinReputation(vs: seq<Valuation>, rep: Reputation)
    requires Discounted(vs) && NonNegative(rep)
    ensures Total(ClaimScores(vs, rep)) <= Total(Standing(rep, Raters(vs)))
  {
    var f, caps := ScorePosting(rep, Budgets(vs)), Standing(rep, Raters(vs));
    forall g | g in caps ensures Posted(Spread(f, Filter(InGroup(RaterOf(), g), vs))) <= caps[g] {
      RaterWithinReputation(vs, rep, g);
    }
    assert Capped(f, RaterOf(), vs, caps);
    GroupBound(f, RaterOf(), vs, caps);
    TallyTotal(ScorePostings(vs, rep));
  }

  // ---- contributors get no more than the claims scored -----------------------------

  lemma ConsentAtMostOne(state: LiveState, claim: LiveClaim, a: nat, unaccepted: nat)
    requires unaccepted <= S
    ensures Consent(state, claim, a, S, unaccepted) <= S
  {
  }

  lemma WeightAtMost(state: LiveState, rules: Rules, claim: LiveClaim, score: int, a: nat)
    requires Fractional(rules) && SoundClaim(claim) && score >= 0 && a in claim.shares
    ensures Posted(WeightPosting(state, rules, claim, score)(a))
      <= FpMul(score, claim.shares[a] * S / claim.totalShares)
  {
    var ratio, consent := claim.shares[a] * S / claim.totalShares, Consent(state, claim, a, S, rules.unacceptedMult);
    assert ratio >= 0 by { DivisionMonotone(0, claim.shares[a] * S, claim.totalShares); }
    FpMulNonNegative(score, ratio);
    ConsentAtMostOne(state, claim, a, rules.unacceptedMult);
    FpMulShrinks(FpMul(score, ratio), consent);
    WeightPostingAt(state, rules, claim, score, a);
    PostedNone<nat>();
    PostedSingle(Posting(a, WeightAmount(state, rules, claim, score, a)));
  }

  /** One claim's score is shared out at most once. */
  lemma ClaimSharedOnce(state: LiveState, rules: Rules, claim: LiveClaim, score: int, contributors: seq<nat>)
    requires Fractional(rules) && SoundClaim(claim) && score >= 0 && contributors == AscendingNats(claim.shares.Keys)
    ensures Posted(Spread(WeightPosting(state, rules, claim, score), contributors)) <= score
  {
    TotalAscending(claim.shares, contributors);
    var parts := Along(claim.shares, contributors);
    var caps := Products(score, Ratios(parts, claim.totalShares));
    forall i | 0 <= i < |contributors|
      ensures Posted(WeightPosting(state, rules, claim, score)(contributors[i])) <= caps[i]
    {
      WeightAtMost(state, rules, claim, score, contributors[i]);
    }
    SpreadBound(WeightPosting(state, rules, claim, score), contributors, caps);
    RatiosAtMostOne(parts, claim.totalShares);
    SplitAtMost(score, Ratios(parts, claim.totalShares));
  }

  lemma ClaimPostingAtMost(state: LiveState, rules: Rules, scores: map<nat, int>, uid: nat)
    requires Fractional(rules) && SoundState(state) && NonNegative(scores) && uid in scores
    ensures Posted(ClaimPosting(state, rules, scores)(uid)) <= scores[uid]
  {
    PostedNone<nat>();
    if uid in state.claims && scores[uid] != 0 {
      ClaimSharedOnce(state, rules, state.claims[uid], scores[uid], AscendingNats(state.claims[uid].shares.Keys));
    }
  }

  /** The contributor weights together stay within the claim scores. */
  lemma WeightsWithinScores(state: LiveState, rules: Rules, scores: map<nat, int>)
    requires Fractional(rules) && SoundState(state) && NonNegative(scores)
    ensures Total(ContributorWeights(state, rules, scores)) <= Total(scores)
  {
    var uids, f := AscendingNats(scores.Keys), ClaimPosting(state, rules, scores);
    TotalAscending(scores, uids);
    var caps := Along(scores, uids);
    forall i | 0 <= i < |uids| ensures Posted(f(uids[i])) <= caps[i] {
      ClaimPostingAtMost(state, rules, scores, uids[i]);
    }
    SpreadBound(f, uids, caps);
    TallyTotal(WeightPostings(state, rules, scores));
  }

  // ---- the carve-out ------------------------------------------------------------------

  lemma {:induction false} SidePosted(mass: map<nat, int>, total: int, amount: int, accounts: seq<nat>)
    requires total > 0 && forall i :: 0 <= i < |accounts| ==> accounts[i] in mass
    ensures Posted(Spread(SidePosting(mass, total, amount), accounts))
      == Sum(Portions(Along(mass, accounts), total, amount))
  {
    PostedNone<nat>();
    if accounts != [] {
      var n := |accounts| - 1;
      var f := SidePosting(mass, total, amount);
      SidePosted(mass, total, amount, accounts[..n]);
      SidePostingAt(mass, total, amount, accounts[n]);
      PostedConcat(Spread(f, accounts[..n]), f(accounts[n]));
      PostedSingle(Posting(accounts[n], mass[accounts[n]] * amount / total));
      assert Portions(Along(mass, accounts), total, amount)[..n] == Portions(Along(mass, accounts[..n]), total, amount);
    }
  }

  /** A side with mass hands out its amount but for less than one unit an account; a side without hands out nothing. */
  lemma SideBounds(mass: map<nat, int>, amount: int)
    requires NonNegative(mass) && amount >= 0
    ensures 0 <= Posted(Side(mass, amount)) <= amount
    ensures Total(mass) > 0 ==> Posted(Side(mass, amount)) > amount - |mass.Keys|
  {
    var accounts, total := AscendingNats(mass.Keys), Total(mass);
    SideNonNegative(mass, total, amount, accounts);
    PostedNonNegative(Side(mass, amount));
    if total <= 0 {
      NoPostings(mass, total, amount, accounts);
      PostedNone<nat>();
    } else {
      TotalAscending(mass, accounts);
      SidePosted(mass, total, amount, accounts);
      PortionsAtMost(Along(mass, accounts), total, amount);
      PortionsAlmost(Along(mass, accounts), total, amount);
    }
  }

  lemma SideNonNegative(mass: map<nat, int>, total: int, amount: int, accounts: seq<nat>)
    requires NonNegative(mass) && amount >= 0
    ensures NonNegativeAmounts(Spread(SidePosting(mass, total, amount), accounts))
  {
    forall i | 0 <= i < |accounts| ensures NonNegativeAmounts(SidePosting(mass, total, amount)(accounts[i])) {
      var a := accounts[i];
      if a in mass && total > 0 {
        Scaled(amount, 0, mass[a]);
        DivisionMonotone(0, mass[a] * amount, total);
        SidePostingAt(mass, total, amount, a);
      }
    }
    SpreadNonNegative(SidePosting(mass, total, amount), accounts);
  }

  /** The combined weights never pass the scale; with mass on both sides they miss it by less than
      one unit a contributor and one a participant. */
  lemma CombinedBounds(weights: map<nat, int>, standing: map<nat, int>, beta: int)
    requires NonNegative(weights) && NonNegative(standing) && 0 <= beta <= S
    ensures 0 <= Total(Combined(weights, standing, beta)) <= S
    ensures Total(weights) > 0 && Total(standing) > 0 ==>
      Total(Combined(weights, standing, beta)) > S - (|weights.Keys| + |standing.Keys|)
  {
    SideBounds(weights, S - beta);
    SideBounds(standing, beta);
    CombinedPosted(weights, standing, beta);
  }

  lemma CombinedPosted(weights: map<nat, int>, standing: map<nat, int>, beta: int)
    ensures Total(Combined(weights, standing, beta))
      == Posted(Side(weights, S - beta)) + (if beta == 0 then 0 else Posted(Side(standing, beta)))
  {
    var a, b := Side(weights, S - beta), Side(standing, beta);
    TallyTotal(a);
    TallyTotal(a + b);
    PostedConcat(a, b);
  }

  lemma EligibleDiscounted(state: LiveState, rep: Reputation, rules: Rules)
    requires Fractional(rules)
    ensures Discounted(Eligible(state, rep, rules))
  {
    EligibleKeysPass(state, rep, rules);
  }

  lemma ScoredBounds(state: LiveState, rep: Reputation, vs: seq<Valuation>, rules: Rules, scores: map<nat, int>,
                     weights: map<nat, int>)
    requires SoundState(state) && NonNegative(rep) && Fractional(rules) && Discounted(vs)
    requires scores == ClaimScores(vs, rep) && weights == ContributorWeights(state, rules, scores)
    ensures NonNegative(weights) && 0 <= Total(weights) <= Total(scores) <= Total(Standing(rep, Raters(vs)))
  {
    ScoresWithinReputation(vs, rep);
    WeightsNonNegative(state, rules, vs, rep);
    WeightsWithinScores(state, rules, scores);
    TotalNonNegative(weights);
  }

  /** All of the bounds of one round, from the participants' standing to payout weight. */
  ghost predicate WithinBounds(w: Weights, standing: map<nat, int>) {
    && 0 <= Total(w.contributorWeights) <= Total(w.claimScores) <= Total(standing)
    && 0 <= Total(w.combinedWeights) <= S
    && (Total(w.contributorWeights) > 0 && Total(standing) > 0 ==>
          Total(w.combinedWeights) > S - (|w.contributorWeights.Keys| + |standing.Keys|))
  }

  lemma BoundsTogether(scores: map<nat, int>, weights: map<nat, int>, standing: map<nat, int>, beta: int)
    requires NonNegative(weights) && NonNegative(standing) && 0 <= beta <= S
    requires 0 <= Total(weights) <= Total(scores) <= Total(standing)
    ensures WithinBounds(Weights(scores, weights, Combined(weights, standing, beta)), standing)
  {
    CombinedBounds(weights, standing, beta);
  }

  lemma EligibleWithinBounds(state: LiveState, rep: Reputation, vs: seq<Valuation>, rules: Rules)
    requires SoundState(state) && NonNegative(rep) && Fractional(rules) && Discounted(vs)
    ensures WithinBounds(Scored(state, rep, vs, Raters(vs), rules), Standing(rep, Raters(vs)))
  {
    var scores := ClaimScores(vs, rep);
    var weights := ContributorWeights(state, rules, scores);
    ScoredBounds(state, rep, vs, rules, scores, weights);
    BoundsTogether(scores, weights, Standing(rep, Raters(vs)), Beta(rules.carveoutBps));
  }

  lemma RoundBounds(state: LiveState, rep: Reputation, rules: Rules)
    requires SoundState(state) && NonNegative(rep) && Fractional(rules)
    ensures var raters := Participants(state, rep, rules);
      WithinBounds(Scored(state, rep, Eligible(state, rep, rules), raters, rules), Standing(rep, raters))
  {
    EligibleDiscounted(state, rep, rules);
    EligibleWithinBounds(state, rep, Eligible(state, rep, rules), rules);
  }

  lemma LiveIsSound(records: seq<Record>, round: Round)
    ensures SoundState(Live(records, round))
  {
    var state := Live(records, round);
    forall k | k in state.valuations ensures k.0 in state.claims { LiveValuation(records, round, k); }
    forall c | c in state.claims ensures SoundClaim(state.claims[c]) { LiveClaimShares(records, round, c); }
  }

  /** Whatever the log of records, the round scored from it keeps the bounds. */
  lemma EveryLogKeepsBounds(records: seq<Record>, round: Round, rep: Reputation, rules: Rules)
    requires NonNegative(rep) && Fractional(rules)
    ensures var state := Live(records, round);
      var raters := Participants(state, rep, rules);
      WithinBounds(Scored(state, rep, Eligible(state, rep, rules), raters, rules), Standing(rep, raters))
  {
    LiveIsSound(records, round);
    RoundBounds(Live(records, round), rep, rules);
  }
}
