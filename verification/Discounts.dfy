/** Which valuations count, who is discounted, and what a rater's voice is worth:
    crates/contributions-core/src/compute.rs:124-211. */
module Discounts {
  import opened Totals
  import opened Ordering
  import opened FixedPoint
  import opened Grouping
  import opened Reconcile
  import opened Eligibility
  import opened Stage2
  import opened Stage2Bounds
  import opened Payout

  // ---- the counting valuations ------------------------------------------------------

  /** A live valuation of somebody else's claim by a rater of enough standing. */
  ghost predicate Counts(state: LiveState, rep: Reputation, rules: Rules, uid: nat, rater: nat) {
    && (uid, rater) in state.valuations && uid in state.claims
    && rater !in state.claims[uid].shares && rater != state.claims[uid].attester
    && Get(rep, rater) >= rules.minRaterRep
  }

  /** The rater and some other account share a claim, and that account is a contributor of the rated one. */
  ghost predicate WorksWith(claims: Claims, uid: nat, rater: nat)
    requires uid in claims
  {
    exists shared, peer :: shared in claims && rater in claims[shared].shares && peer in claims[shared].shares
      && peer != rater && peer in claims[uid].shares
  }

  lemma ConflictMeaning(claims: Claims, uid: nat, rater: nat)
    requires uid in claims
    ensures Conflicted(claims, (uid, rater)) <==> WorksWith(claims, uid, rater)
  {
    if WorksWith(claims, uid, rater) {
      var shared, peer :| shared in claims && rater in claims[shared].shares && peer in claims[shared].shares
        && peer != rater && peer in claims[uid].shares;
      assert peer in Peers(claims, rater);
    }
  }

  /** The entry says what the valuation says, discounted exactly for collaborators. */
  ghost predicate EntryOf(state: LiveState, rules: Rules, uid: nat, rater: nat, v: Valuation)
    requires (uid, rater) in state.valuations && uid in state.claims
  {
    && v.claim == uid && v.rater == rater && v.score == state.valuations[(uid, rater)]
    && v.discount == if WorksWith(state.claims, uid, rater) then rules.collaboratorMult else S
  }

  lemma EligibleKeyAt(state: LiveState, rep: Reputation, rules: Rules, i: nat)
    requires i < |Eligible(state, rep, rules)|
    ensures |EligibleKeys(state, rep, rules)| == |Eligible(state, rep, rules)|
    ensures var k := EligibleKeys(state, rep, rules)[i];
      Counts(state, rep, rules, k.0, k.1) && EntryOf(state, rules, k.0, k.1, Eligible(state, rep, rules)[i])
  {
    EligibleKeysPass(state, rep, rules);
    var k := EligibleKeys(state, rep, rules)[i];
    assert Passes(state, rep, rules, k);
    ConflictMeaning(state.claims, k.0, k.1);
  }

  lemma EligibleKeysDistinct(state: LiveState, rep: Reputation, rules: Rules)
    ensures Distinct(EligibleKeys(state, rep, rules))
  {
    PairLeIsTotalOrder();
    FilterDistinct(Passing(state, rep, rules), AscendingPairs(state.valuations.Keys));
  }

  /** Every counting valuation has exactly one entry, which says what it says. */
  lemma CountingEntry(state: LiveState, rep: Reputation, rules: Rules, uid: nat, rater: nat) returns (i: nat)
    requires Counts(state, rep, rules, uid, rater)
    ensures i < |Eligible(state, rep, rules)|
    ensures EntryOf(state, rules, uid, rater, Eligible(state, rep, rules)[i])
    ensures forall j :: 0 <= j < |Eligible(state, rep, rules)| && j != i ==>
      !(Eligible(state, rep, rules)[j].claim == uid && Eligible(state, rep, rules)[j].rater == rater)
  {
    var keys, k := EligibleKeys(state, rep, rules), (uid, rater);
    PairLeIsTotalOrder();
    FilterMember(Passing(state, rep, rules), AscendingPairs(state.valuations.Keys), k);
    i :| 0 <= i < |keys| && keys[i] == k;
    EligibleKeysPass(state, rep, rules);
    EligibleKeyAt(state, rep, rules, i);
    EligibleKeysDistinct(state, rep, rules);
    forall j | 0 <= j < |Eligible(state, rep, rules)| && j != i
      ensures !(Eligible(state, rep, rules)[j].claim == uid && Eligible(state, rep, rules)[j].rater == rater)
    {
      EligibleKeyAt(state, rep, rules, j);
      assert keys[j] != k;
    }
  }

  /** And no entry is there but for a counting valuation. */
  lemma EntriesCount(state: LiveState, rep: Reputation, rules: Rules, i: nat)
    requires i < |Eligible(state, rep, rules)|
    ensures var v := Eligible(state, rep, rules)[i];
      Counts(state, rep, rules, v.claim, v.rater) && EntryOf(state, rules, v.claim, v.rater, v)
  {
    EligibleKeyAt(state, rep, rules, i);
  }

  /** Who takes part is who cast a counting valuation. */
  lemma ParticipantsCount(state: LiveState, rep: Reputation, rules: Rules, rater: nat)
    ensures rater in Participants(state, rep, rules) <==> exists uid :: Counts(state, rep, rules, uid, rater)
  {
    var vs := Eligible(state, rep, rules);
    if rater in Raters(vs) {
      var i :| 0 <= i < |vs| && vs[i].rater == rater;
      EntriesCount(state, rep, rules, i);
    }
    if uid :| Counts(state, rep, rules, uid, rater) {
      var i := CountingEntry(state, rep, rules, uid, rater);
      assert vs[i] in vs;
    }
  }

  // ---- what a valuation gives ------------------------------------------------------

  /** The part of the rater's reputation that valuation `i` gives to its claim. */
  ghost function Given(vs: seq<Valuation>, rep: Reputation, i: nat): int
    requires i < |vs|
  {
    var budget := Sum(ScoresOf(Mine(vs, vs[i].rater)));
    if budget <= 0 then 0
    else FpMul(FpMul(Get(rep, vs[i].rater), vs[i].score * S / budget), vs[i].discount)
  }

  ghost function GivenTo(vs: seq<Valuation>, rep: Reputation, uid: nat): seq<int>
  {
    seq(|vs|, i requires 0 <= i < |vs| => if vs[i].claim == uid then Given(vs, rep, i) else 0)
  }

  lemma PostingGives(vs: seq<Valuation>, rep: Reputation, i: nat, uid: nat)
    requires i < |vs|
    ensures AmountAt(ScorePosting(rep, Budgets(vs))(vs[i]), uid) == if vs[i].claim == uid then Given(vs, rep, i) else 0
  {
    var v, budgets := vs[i], Budgets(vs);
    BudgetIsSum(vs, v.rater);
    ScorePostingAt(rep, budgets, v);
    assert AmountsAt<nat>([], uid) == [];
    if Get(budgets, v.rater) > 0 {
      var p := Posting(v.claim, Contribution(Get(rep, v.rater), v.score, Get(budgets, v.rater), v.discount));
      assert [p] == [] + [p];
      AmountAtSnoc([], p, uid);
    }
  }

  /** A claim's score is what the counting valuations give it together. */
  lemma ClaimScoreIsGiven(vs: seq<Valuation>, rep: Reputation, uid: nat)
    ensures Get(ClaimScores(vs, rep), uid) == Sum(GivenTo(vs, rep, uid))
  {
    var f := ScorePosting(rep, Budgets(vs));
    TallyAt(ScorePostings(vs, rep), uid);
    SpreadAmount(f, vs, uid);
    forall i | 0 <= i < |vs| ensures AmountsFrom(f, vs, uid)[i] == GivenTo(vs, rep, uid)[i] {
      PostingGives(vs, rep, i, uid);
    }
    assert AmountsFrom(f, vs, uid) == GivenTo(vs, rep, uid);
  }

  // ---- what a rater's voice is worth -------------------------------------------------

  /** All the rater's counting valuations carry the same discount. */
  ghost predicate Uniformly(vs: seq<Valuation>, r: nat, discount: nat) {
    forall i :: 0 <= i < |vs| && vs[i].rater == r ==> vs[i].discount == discount
  }

  function Damped(parts: seq<int>, discount: int): seq<int>
  {
    seq(|parts|, i requires 0 <= i < |parts| => FpMul(parts[i], discount))
  }

  lemma {:induction false} VoicePosted(rep: Reputation, budgets: map<nat, int>, vs: seq<Valuation>, r: nat,
                                       discount: nat)
    requires AllBy(vs, r) && Uniformly(vs, r, discount) && Get(budgets, r) > 0
    ensures Posted(Spread(ScorePosting(rep, budgets), vs))
      == Sum(Damped(Products(Get(rep, r), Ratios(ScoresOf(vs), Get(budgets, r))), discount))
  {
    PostedNone<nat>();
    if vs != [] {
      var n, f := |vs| - 1, ScorePosting(rep, budgets);
      var v := vs[n];
      VoicePosted(rep, budgets, vs[..n], r, discount);
      ScorePostingAt(rep, budgets, v);
      PostedConcat(Spread(f, vs[..n]), f(v));
      PostedSingle(Posting(v.claim, Contribution(Get(rep, r), v.score, Get(budgets, r), discount)));
      var parts := Products(Get(rep, r), Ratios(ScoresOf(vs), Get(budgets, r)));
      assert Damped(parts, discount)[..n]
          == Damped(Products(Get(rep, r), Ratios(ScoresOf(vs[..n]), Get(budgets, r))), discount);
    }
  }

  lemma DampedAtMost(parts: seq<int>, discount: nat, whole: int)
    requires Sum(parts) <= whole
    ensures Sum(Damped(parts, discount)) <= FpMul(whole, discount)
  {
    var damped := Damped(parts, discount);
    forall i | 0 <= i < |parts| ensures S * damped[i] <= discount * parts[i] + 0 * parts[i] {
      FpMulBounds(parts[i], discount);
    }
    SumDominated(damped, parts, parts, S, discount, 0);
    Scaled(discount, Sum(parts), whole);
    FpMulBounds(whole, discount);
    CancelLess(S, Sum(damped), FpMul(whole, discount) + 1);
  }

  lemma MineUniform(vs: seq<Valuation>, r: nat, discount: nat)
    requires Uniformly(vs, r, discount)
    ensures Uniformly(Mine(vs, r), r, discount)
  {
    MineIsBy(vs, r);
    forall i | 0 <= i < |Mine(vs, r)| ensures Mine(vs, r)[i].discount == discount {
      assert Mine(vs, r)[i] in Mine(vs, r);
      var j :| 0 <= j < |vs| && vs[j] == Mine(vs, r)[i];
    }
  }

  /** A rater who values only collaborators' claims gives away at most the discounted part of its reputation. */
  lemma DiscountedVoice(vs: seq<Valuation>, rep: Reputation, r: nat, discount: nat)
    requires Uniformly(vs, r, discount) && Get(rep, r) >= 0
    ensures Posted(Spread(ScorePosting(rep, Budgets(vs)), Mine(vs, r))) <= FpMul(Get(rep, r), discount)
  {
    var mine, budgets := Mine(vs, r), Budgets(vs);
    var scores, budget := ScoresOf(mine), Get(budgets, r);
    MineIsBy(vs, r);
    MineUniform(vs, r, discount);
    BudgetIsSum(vs, r);
    FpMulNonNegative(Get(rep, r), discount);
    if budget > 0 {
      VoicePosted(rep, budgets, mine, r, discount);
      RatiosAtMostOne(scores, budget);
      SplitAtMost(Get(rep, r), Ratios(scores, budget));
      DampedAtMost(Products(Get(rep, r), Ratios(scores, budget)), discount, Get(rep, r));
    } else {
      SilentVoice(rep, budgets, mine, r);
    }
  }

  lemma {:induction false} SilentVoice(rep: Reputation, budgets: map<nat, int>, vs: seq<Valuation>, r: nat)
    requires AllBy(vs, r) && Get(budgets, r) <= 0
    ensures Posted(Spread(ScorePosting(rep, budgets), vs)) == 0
  {
    PostedNone<nat>();
    if vs != [] {
      var n := |vs| - 1;
      SilentVoice(rep, budgets, vs[..n], r);
      PostedConcat(Spread(ScorePosting(rep, budgets), vs[..n]), ScorePosting(rep, budgets)(vs[n]));
    }
  }

  lemma UndampedSame(parts: seq<int>)
    ensures Damped(parts, S) == parts
  {
    forall i | 0 <= i < |parts| ensures FpMul(parts[i], S) == parts[i] { WholeFactor(parts[i]); }
  }

  /** An undiscounted rater with a budget gives away its whole reputation but for truncation. */
  lemma FullVoice(vs: seq<Valuation>, rep: Reputation, r: nat)
    requires Uniformly(vs, r, S) && Get(rep, r) >= 0 && Sum(ScoresOf(Mine(vs, r))) > 0
    ensures S * Posted(Spread(ScorePosting(rep, Budgets(vs)), Mine(vs, r))) > LeastPaid(Get(rep, r), |Mine(vs, r)|)
  {
    var mine, budgets := Mine(vs, r), Budgets(vs);
    var scores, budget := ScoresOf(mine), Get(budgets, r);
    MineIsBy(vs, r);
    MineUniform(vs, r, S);
    BudgetIsSum(vs, r);
    VoicePosted(rep, budgets, mine, r, S);
    UndampedSame(Products(Get(rep, r), Ratios(scores, budget)));
    SplitAlmost(Get(rep, r), scores, budget);
  }

  // ---- collaborators against outsiders ------------------------------------------------

  /** Every counting valuation of the rater is of a collaborator's claim. */
  ghost predicate OnlyCollaborators(state: LiveState, rep: Reputation, rules: Rules, r: nat) {
    forall uid :: Counts(state, rep, rules, uid, r) ==> WorksWith(state.claims, uid, r)
  }

  ghost predicate NoCollaborators(state: LiveState, rep: Reputation, rules: Rules, r: nat) {
    forall uid :: Counts(state, rep, rules, uid, r) ==> !WorksWith(state.claims, uid, r)
  }

  /** A ring of collaborators that values only its own work is worth its discount. */
  lemma CollaboratorsDiscounted(state: LiveState, rep: Reputation, rules: Rules, r: nat)
    requires OnlyCollaborators(state, rep, rules, r) && Get(rep, r) >= 0
    ensures var vs := Eligible(state, rep, rules);
      Posted(Spread(ScorePosting(rep, Budgets(vs)), Mine(vs, r))) <= FpMul(Get(rep, r), rules.collaboratorMult)
  {
    var vs := Eligible(state, rep, rules);
    forall i | 0 <= i < |vs| && vs[i].rater == r ensures vs[i].discount == rules.collaboratorMult {
      EntriesCount(state, rep, rules, i);
    }
    DiscountedVoice(vs, rep, r, rules.collaboratorMult);
  }

  /** An outsider with a budget is heard in full. */
  lemma OutsidersHeardInFull(state: LiveState, rep: Reputation, rules: Rules, r: nat)
    requires NoCollaborators(state, rep, rules, r) && Get(rep, r) >= 0
    requires Sum(ScoresOf(Mine(Eligible(state, rep, rules), r))) > 0
    ensures var vs := Eligible(state, rep, rules);
      S * Posted(Spread(ScorePosting(rep, Budgets(vs)), Mine(vs, r))) > LeastPaid(Get(rep, r), |Mine(vs, r)|)
  {
    var vs := Eligible(state, rep, rules);
    forall i | 0 <= i < |vs| && vs[i].rater == r ensures vs[i].discount == S {
      EntriesCount(state, rep, rules, i);
    }
    FullVoice(vs, rep, r);
  }
}
