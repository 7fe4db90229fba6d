/** What one rater's valuations can and cannot do: crates/contributions-core/src/compute.rs:124-211. */
module RaterVoice {
  import opened Totals
  import opened Ordering
  import opened FixedPoint
  import opened Grouping
  import opened Reconcile
  import opened Eligibility
  import opened Stage2
  import opened Stage2Bounds

  ghost function Outcome(state: LiveState, rep: Reputation, rules: Rules): Weights
  {
    Scored(state, rep, Eligible(state, rep, rules), Participants(state, rep, rules), rules)
  }

  // ---- only the claims and the responses reach the contributor weights -----------

  lemma SameConsent(a: LiveState, b: LiveState, rules: Rules, claim: LiveClaim, score: int, contributor: nat)
    requires a.responses == b.responses
    ensures WeightPosting(a, rules, claim, score)(contributor) == WeightPosting(b, rules, claim, score)(contributor)
  {
    if contributor in claim.shares {
      WeightPostingAt(a, rules, claim, score, contributor);
      WeightPostingAt(b, rules, claim, score, contributor);
    }
  }

  lemma SameClaimPosting(a: LiveState, b: LiveState, rules: Rules, scores: map<nat, int>, uid: nat)
    requires a.claims == b.claims && a.responses == b.responses
    ensures ClaimPosting(a, rules, scores)(uid) == ClaimPosting(b, rules, scores)(uid)
  {
    if uid in scores && uid in a.claims {
      var claim, score := a.claims[uid], scores[uid];
      var contributors := AscendingNats(claim.shares.Keys);
      forall i | 0 <= i < |contributors|
        ensures WeightPosting(a, rules, claim, score)(contributors[i])
          == WeightPosting(b, rules, claim, score)(contributors[i])
      {
        SameConsent(a, b, rules, claim, score, contributors[i]);
      }
      SpreadAgree(WeightPosting(a, rules, claim, score), WeightPosting(b, rules, claim, score), contributors);
    }
  }

  lemma SameWeights(a: LiveState, b: LiveState, rules: Rules, scores: map<nat, int>)
    requires a.claims == b.claims && a.responses == b.responses
    ensures ContributorWeights(a, rules, scores) == ContributorWeights(b, rules, scores)
  {
    var uids := AscendingNats(scores.Keys);
    forall i | 0 <= i < |uids|
      ensures ClaimPosting(a, rules, scores)(uids[i]) == ClaimPosting(b, rules, scores)(uids[i])
    {
      SameClaimPosting(a, b, rules, scores, uids[i]);
    }
    SpreadAgree(ClaimPosting(a, rules, scores), ClaimPosting(b, rules, scores), uids);
  }

  lemma SameScored(a: LiveState, b: LiveState, rep: Reputation, vs: seq<Valuation>, ws: seq<Valuation>, rules: Rules)
    requires a.claims == b.claims && a.responses == b.responses
    requires ClaimScores(vs, rep) == ClaimScores(ws, rep) && Raters(vs) == Raters(ws)
    ensures Scored(a, rep, vs, Raters(vs), rules) == Scored(b, rep, ws, Raters(ws), rules)
  {
    SameWeights(a, b, rules, ClaimScores(vs, rep));
  }

  /** Rating an own claim, or rating with too little standing, changes no result at all. */
  lemma SkippedValuationChangesNothing(state: LiveState, rep: Reputation, rules: Rules, k: Key, score: nat)
    requires k.0 in state.claims && Judge(state.claims, rep, rules, k).Some?
    ensures Outcome(state.(valuations := state.valuations[k := score]), rep, rules) == Outcome(state, rep, rules)
  {
    var other := state.(valuations := state.valuations[k := score]);
    SkippedValuationInert(state, rep, rules, k, score);
    SameScored(state, other, rep, Eligible(state, rep, rules), Eligible(other, rep, rules), rules);
  }

  // ---- louder is not more ----------------------------------------------------------

  function Louder(r: nat, factor: nat, v: Valuation): Valuation
  {
    if v.rater == r then v.(score := factor * v.score) else v
  }

  function Amplified(vs: seq<Valuation>, r: nat, factor: nat): (r': seq<Valuation>)
    ensures |r'| == |vs|
  {
    seq(|vs|, i requires 0 <= i < |vs| => Louder(r, factor, vs[i]))
  }

  lemma AmplifiedFront(vs: seq<Valuation>, r: nat, factor: nat)
    requires vs != []
    ensures Amplified(vs, r, factor)[..|vs| - 1] == Amplified(vs[..|vs| - 1], r, factor)
  {
  }

  lemma {:induction false} AmplifiedBudget(vs: seq<Valuation>, r: nat, factor: nat, x: nat)
    ensures Get(Budgets(Amplified(vs, r, factor)), x) == (if x == r then factor else 1) * Get(Budgets(vs), x)
  {
    if vs != [] {
      var n := |vs| - 1;
      AmplifiedFront(vs, r, factor);
      AmplifiedBudget(vs[..n], r, factor, x);
      TallySnoc(Spread(BudgetPosting(), vs[..n]), Posting(vs[n].rater, vs[n].score));
      var w := Louder(r, factor, vs[n]);
      TallySnoc(Spread(BudgetPosting(), Amplified(vs[..n], r, factor)), Posting(w.rater, w.score));
      Distributes(factor, Get(Budgets(vs[..n]), x), vs[n].score);
    }
  }

  /** A common factor does not change a quotient. */
  lemma QuotientOfMultiples(a: int, b: int, k: int)
    requires b > 0 && k > 0
    ensures k * b > 0 && (k * a) / (k * b) == a / b
  {
    var q := a / b;
    FloorTimes(a, b);
    Scaled(k, b * q, a);
    Scaled(k, a + 1, b * q + b);
    assert k * (b * q) == (k * b) * q && k * (b * q + b) == (k * b) * q + k * b && k * (a + 1) == k * a + k;
    assert k * b > 0 by { Scaled(b, 1, k); }
    QuotientUnique(k * a, k * b, q);
  }

  lemma QuotientUnique(a: int, d: int, q: int)
    requires d > 0 && d * q <= a < d * q + d
    ensures a / d == q
  {
    FloorTimes(a, d);
    if a / d > q { Scaled(d, q + 1, a / d); }
    if a / d < q { Scaled(d, a / d + 1, q); }
  }

  lemma SameContribution(rep: int, score: nat, budget: int, discount: nat, factor: nat)
    requires factor > 0 && budget > 0
    ensures factor * budget > 0
      && Contribution(rep, factor * score, factor * budget, discount) == Contribution(rep, score, budget, discount)
  {
    QuotientOfMultiples(score * S, budget, factor);
    assert (factor * score) * S == factor * (score * S);
  }

  lemma SamePosting(rep: Reputation, budgets: map<nat, int>, loud: map<nat, int>, v: Valuation, r: nat, factor: nat)
    requires factor > 0 && Get(loud, v.rater) == (if v.rater == r then factor else 1) * Get(budgets, v.rater)
    ensures ScorePosting(rep, loud)(Louder(r, factor, v)) == ScorePosting(rep, budgets)(v)
  {
    ScorePostingAt(rep, budgets, v);
    ScorePostingAt(rep, loud, Louder(r, factor, v));
    var budget := Get(budgets, v.rater);
    if budget > 0 {
      SameContribution(Get(rep, v.rater), v.score, budget, v.discount, factor);
    } else {
      Scaled(factor, budget, 0);
    }
  }

  lemma {:induction false} SamePostings(rep: Reputation, budgets: map<nat, int>, loud: map<nat, int>,
                                        vs: seq<Valuation>, r: nat, factor: nat)
    requires factor > 0 && forall x :: Get(loud, x) == (if x == r then factor else 1) * Get(budgets, x)
    ensures Spread(ScorePosting(rep, loud), Amplified(vs, r, factor)) == Spread(ScorePosting(rep, budgets), vs)
  {
    if vs != [] {
      var n := |vs| - 1;
      AmplifiedFront(vs, r, factor);
      SamePostings(rep, budgets, loud, vs[..n], r, factor);
      SamePosting(rep, budgets, loud, vs[n], r, factor);
    }
  }

  lemma AmplifiedScores(vs: seq<Valuation>, rep: Reputation, r: nat, factor: nat)
    requires factor > 0
    ensures ClaimScores(Amplified(vs, r, factor), rep) == ClaimScores(vs, rep)
  {
    forall x ensures Get(Budgets(Amplified(vs, r, factor)), x) == (if x == r then factor else 1) * Get(Budgets(vs), x) {
      AmplifiedBudget(vs, r, factor, x);
    }
    SamePostings(rep, Budgets(vs), Budgets(Amplified(vs, r, factor)), vs, r, factor);
  }

  /** Every score of one rater multiplied by the same factor. */
  function LouderState(state: LiveState, r: nat, factor: nat): LiveState
  {
    state.(valuations := map k | k in state.valuations :: if k.1 ==
      r then factor * state.valuations[k] else state.valuations[k])
  }

  lemma LouderEntries(state: LiveState, rep: Reputation, rules: Rules, r: nat, factor: nat, keys: seq<Key>)
    requires AllPass(state, rep, rules, keys) && AllPass(LouderState(state, r, factor), rep, rules, keys)
    ensures Entries(LouderState(state, r, factor), rules, keys) == Amplified(Entries(state, rules, keys), r, factor)
  {
    forall i | 0 <= i < |keys|
      ensures Entry(LouderState(state, r, factor), rules, keys[i]) == Louder(r, factor, Entry(state, rules, keys[i]))
    {
      assert Passes(state, rep, rules, keys[i]);
    }
  }

  lemma LouderEligible(state: LiveState, rep: Reputation, rules: Rules, r: nat, factor: nat)
    ensures Eligible(LouderState(state, r, factor), rep, rules) == Amplified(Eligible(state, rep, rules), r, factor)
  {
    var loud := LouderState(state, r, factor);
    EligibleKeysAscend(state, rep, rules);
    EligibleKeysAscend(loud, rep, rules);
    SameKeysPass(state, loud, rep, rules);
    EligibleKeysPass(state, rep, rules);
    EligibleKeysPass(loud, rep, rules);
    LouderEntries(state, rep, rules, r, factor, EligibleKeys(state, rep, rules));
  }

  lemma SameKeysPass(a: LiveState, b: LiveState, rep: Reputation, rules: Rules)
    requires a.claims == b.claims && a.valuations.Keys == b.valuations.Keys
    ensures PassingKeys(a, rep, rules) == PassingKeys(b, rep, rules)
  {
    forall k ensures Passes(a, rep, rules, k) <==> Passes(b, rep, rules, k) {
      assert k in a.valuations <==> k in b.valuations.Keys;
    }
  }

  lemma AmplifiedRaters(vs: seq<Valuation>, r: nat, factor: nat)
    ensures Raters(Amplified(vs, r, factor)) == Raters(vs)
  {
    forall i | 0 <= i < |vs| ensures vs[i].rater in Raters(Amplified(vs, r, factor)) {
      assert Amplified(vs, r, factor)[i] in Amplified(vs, r, factor);
    }
  }

  /** Scoring everything higher by the same factor changes no result: only the proportions speak. */
  lemma ScaleInvariance(state: LiveState, rep: Reputation, rules: Rules, r: nat, factor: nat)
    requires factor > 0
    ensures Outcome(LouderState(state, r, factor), rep, rules) == Outcome(state, rep, rules)
  {
    var vs := Eligible(state, rep, rules);
    LouderEligible(state, rep, rules, r, factor);
    AmplifiedScores(vs, rep, r, factor);
    AmplifiedRaters(vs, r, factor);
    SameScored(LouderState(state, r, factor), state, rep, Amplified(vs, r, factor), vs, rules);
  }

  // ---- one rater moves at most twice its reputation -----------------------------------

  /** The states differ at most in what `r` says. */
  ghost predicate DifferInRater(a: LiveState, b: LiveState, r: nat) {
    && a.claims == b.claims && a.responses == b.responses
    && (forall k: Key :: k.1 != r ==> (k in a.valuations <==> k in b.valuations))
    && forall k: Key :: k.1 != r && k in a.valuations ==> a.valuations[k] == b.valuations[k]
  }

  function NotBy(r: nat): Key -> bool { (k: Key) => k.1 != r }

  function OtherPassingKeys(state: LiveState, rep: Reputation, rules: Rules, r: nat): set<Key>
  {
    set k | k in PassingKeys(state, rep, rules) && k.1 != r
  }

  lemma {:induction false} OthersOfEntries(state: LiveState, rep: Reputation, rules: Rules, keys: seq<Key>, r: nat)
    requires AllPass(state, rep, rules, keys)
    ensures AllPass(state, rep, rules, Filter(NotBy(r), keys))
    ensures Others(Entries(state, rules, keys), r) == Entries(state, rules, Filter(NotBy(r), keys))
  {
    if keys != [] {
      assert Passes(state, rep, rules, keys[0]);
      OthersOfEntries(state, rep, rules, keys[1..], r);
      var vs := Entries(state, rules, keys);
      assert vs[1..] == Entries(state, rules, keys[1..]);
      FilterTail(Not(InGroup(RaterOf(), r)), vs);
      FilterTail(NotBy(r), keys);
    }
  }

  lemma OtherKeysAscend(state: LiveState, rep: Reputation, rules: Rules, r: nat)
    ensures Filter(NotBy(r), EligibleKeys(state, rep, rules)) == AscendingPairs(OtherPassingKeys(state, rep, rules, r))
  {
    PairLeIsTotalOrder();
    EligibleKeysAscend(state, rep, rules);
    FilterAscending(NotBy(r), PairLe, PassingKeys(state, rep, rules), OtherPassingKeys(state, rep, rules, r));
  }

  lemma SameOtherKeys(a: LiveState, b: LiveState, rep: Reputation, rules: Rules, r: nat)
    requires DifferInRater(a, b, r)
    ensures OtherPassingKeys(a, rep, rules, r) == OtherPassingKeys(b, rep, rules, r)
  {
    forall k ensures k in OtherPassingKeys(a, rep, rules, r) <==> k in OtherPassingKeys(b, rep, rules, r) {
      if k.1 != r { assert Passes(a, rep, rules, k) <==> Passes(b, rep, rules, k); }
    }
  }

  /** The other raters' counting valuations are the same. */
  lemma SameOthers(a: LiveState, b: LiveState, rep: Reputation, rules: Rules, r: nat)
    requires DifferInRater(a, b, r)
    ensures Others(Eligible(a, rep, rules), r) == Others(Eligible(b, rep, rules), r)
  {
    EligibleKeysPass(a, rep, rules);
    EligibleKeysPass(b, rep, rules);
    OthersOfEntries(a, rep, rules, EligibleKeys(a, rep, rules), r);
    OthersOfEntries(b, rep, rules, EligibleKeys(b, rep, rules), r);
    OtherKeysAscend(a, rep, rules, r);
    OtherKeysAscend(b, rep, rules, r);
    SameOtherKeys(a, b, rep, rules, r);
    var keys := AscendingPairs(OtherPassingKeys(a, rep, rules, r));
    SameOtherEntries(a, b, rep, rules, r, keys);
  }

  lemma SameOtherEntries(a: LiveState, b: LiveState, rep: Reputation, rules: Rules, r: nat, keys: seq<Key>)
    requires DifferInRater(a, b, r) && AllPass(a, rep, rules, keys) && AllPass(b, rep, rules, keys)
    requires forall k :: k in keys ==> k.1 != r
    ensures Entries(a, rules, keys) == Entries(b, rules, keys)
  {
    forall i | 0 <= i < |keys| ensures Entry(a, rules, keys[i]) == Entry(b, rules, keys[i]) {
      assert Passes(a, rep, rules, keys[i]) && keys[i] in keys;
    }
  }

  lemma OtherBudget(vs: seq<Valuation>, r: nat, x: nat)
    requires x != r
    ensures Get(Budgets(vs), x) == Sum(ScoresOf(Mine(Others(vs, r), x)))
  {
    BudgetIsSum(vs, x);
    OtherGroup(RaterOf(), r, x, vs);
  }

  lemma OtherPostings(vs: seq<Valuation>, ws: seq<Valuation>, rep: Reputation, r: nat)
    requires Others(vs, r) == Others(ws, r)
    ensures Spread(ScorePosting(rep, Budgets(vs)), Others(vs, r))
      == Spread(ScorePosting(rep, Budgets(ws)), Others(ws, r))
  {
    var others := Others(vs, r);
    MineIsBy(vs, r);
    forall i | 0 <= i < |others|
      ensures ScorePosting(rep, Budgets(vs))(others[i]) == ScorePosting(rep, Budgets(ws))(others[i])
    {
      OtherBudget(vs, r, others[i].rater);
      OtherBudget(ws, r, others[i].rater);
      ScorePostingAt(rep, Budgets(vs), others[i]);
      ScorePostingAt(rep, Budgets(ws), others[i]);
    }
    SpreadAgree(ScorePosting(rep, Budgets(vs)), ScorePosting(rep, Budgets(ws)), others);
  }

  ghost function Voice(vs: seq<Valuation>, rep: Reputation, r: nat): seq<Posting<nat>>
  {
    Spread(ScorePosting(rep, Budgets(vs)), Mine(vs, r))
  }

  lemma {:induction false} PostedKeys<T>(f: T -> seq<Posting<nat>>, p: T -> bool, s: seq<T>, i: nat)
    requires i < |Spread(f, Filter(p, s))|
    ensures exists j :: 0 <= j < |Spread(f, s)| && Spread(f, s)[j] == Spread(f, Filter(p, s))[i]
  {
    assert s != [];
    SpreadCons(f, s);
    FilterTail(p, s);
    if p(s[0]) {
      SpreadCons(f, Filter(p, s));
      if i < |f(s[0])| {
        assert Spread(f, s)[i] == f(s[0])[i];
      } else {
        PostedKeys(f, p, s[1..], i - |f(s[0])|);
        var j :| 0 <= j < |Spread(f, s[1..])| && Spread(f, s[1..])[j] == Spread(f, Filter(p, s))[i];
        assert Spread(f, s)[|f(s[0])| + j] == Spread(f, s[1..])[j];
      }
    } else {
      PostedKeys(f, p, s[1..], i);
      var j :| 0 <= j < |Spread(f, s[1..])| && Spread(f, s[1..])[j] == Spread(f, Filter(p, s))[i];
      assert Spread(f, s)[|f(s[0])| + j] == Spread(f, s[1..])[j];
    }
  }

  lemma VoiceWithin(vs: seq<Valuation>, rep: Reputation, r: nat, keys: set<nat>)
    requires NonNegative(rep) && ClaimScores(vs, rep).Keys <= keys
    ensures PostsWithin(Voice(vs, rep, r), keys)
  {
    var f, voice := ScorePosting(rep, Budgets(vs)), Voice(vs, rep, r);
    ScoresNonNegative(Mine(vs, r), rep, Budgets(vs));
    forall i | 0 <= i < |voice| ensures voice[i].key in keys {
      PostedKeys(f, InGroup(RaterOf(), r), vs, i);
      TallyAt(ScorePostings(vs, rep), voice[i].key);
    }
  }

  /** Changing what one rater says, in any way, moves the claim scores by at most twice its reputation. */
  lemma RaterMovesAtMostTwice(vs: seq<Valuation>, ws: seq<Valuation>, rep: Reputation, r: nat)
    requires Others(vs, r) == Others(ws, r) && Discounted(vs) && Discounted(ws) && NonNegative(rep)
    ensures L1(ClaimScores(vs, rep), ClaimScores(ws, rep)) <= 2 * Get(rep, r)
  {
    var s, t := ClaimScores(vs, rep), ClaimScores(ws, rep);
    OtherPostings(vs, ws, rep, r);
    forall k ensures Get(s, k) - AmountAt(Voice(vs, rep, r), k) == Get(t, k) - AmountAt(Voice(ws, rep, r), k) {
      TallyAt(ScorePostings(vs, rep), k);
      TallyAt(ScorePostings(ws, rep), k);
      SpreadSplit(ScorePosting(rep, Budgets(vs)), InGroup(RaterOf(), r), vs, k);
      SpreadSplit(ScorePosting(rep, Budgets(ws)), InGroup(RaterOf(), r), ws, k);
    }
    VoiceWithin(vs, rep, r, s.Keys + t.Keys);
    VoiceWithin(ws, rep, r, s.Keys + t.Keys);
    TallyMoves(s, Voice(vs, rep, r), t, Voice(ws, rep, r));
    RaterWithinReputation(vs, rep, r);
    RaterWithinReputation(ws, rep, r);
  }

  lemma RaterLocality(a: LiveState, b: LiveState, rep: Reputation, rules: Rules, r: nat)
    requires DifferInRater(a, b, r) && Fractional(rules) && NonNegative(rep)
    ensures L1(Outcome(a, rep, rules).claimScores, Outcome(b, rep, rules).claimScores) <= 2 * Get(rep, r)
  {
    SameOthers(a, b, rep, rules, r);
    EligibleDiscounted(a, rep, rules);
    EligibleDiscounted(b, rep, rules);
    RaterMovesAtMostTwice(Eligible(a, rep, rules), Eligible(b, rep, rules), rep, r);
  }
}
