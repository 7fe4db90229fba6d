/** What a claim's score pays to each contributor, from both sides:
    crates/contributions-core/src/compute.rs:213-228 and reconcile.rs:119-135. */
module Payout {
  import opened Totals
  import opened Ordering
  import opened FixedPoint
  import opened Grouping
  import opened Reconcile
  import opened Eligibility
  import opened Stage2
  import opened Stage2Bounds

  // ---- one contributor's weight --------------------------------------------------

  /** The consented part of a claim's score that goes to one contributor, floored at each step. */
  function Paid(score: int, share: int, total: int, consent: int): int
    requires total > 0
  {
    FpMul(FpMul(score, share * S / total), consent)
  }

  lemma WeightIsPaid(state: LiveState, rules: Rules, claim: LiveClaim, score: int, a: nat)
    requires a in claim.shares && claim.totalShares > 0
    ensures WeightAmount(state, rules, claim, score, a)
      == Paid(score, claim.shares[a], claim.totalShares, Consent(state, claim, a, S, rules.unacceptedMult))
  {
  }

  lemma NonZeroAmount(p: Posting<nat>, a: nat)
    ensures AmountAt(NonZero(p), a) == if p.key == a then p.amount else 0
    ensures Posted(NonZero(p)) == p.amount
  {
    if p.amount == 0 {
      assert AmountsAt(NonZero(p), a) == [];
      assert Amounts(NonZero(p)) == [];
    } else {
      assert [p] == [] + [p];
      AmountAtSnoc([], p, a);
      assert AmountsAt<nat>([], a) == [];
      PostedSingle(p);
    }
  }

  lemma {:induction false} WeightsAt(state: LiveState, rules: Rules, claim: LiveClaim, score: int,
                                     contributors: seq<nat>, a: nat)
    requires Distinct(contributors) && forall i :: 0 <= i < |contributors| ==> contributors[i] in claim.shares
    ensures AmountAt(Spread(WeightPosting(state, rules, claim, score), contributors), a)
      == if a in contributors then WeightAmount(state, rules, claim, score, a) else 0
  {
    var f := WeightPosting(state, rules, claim, score);
    if contributors == [] {
      assert AmountsAt<nat>([], a) == [];
    } else {
      var n := |contributors| - 1;
      WeightsAt(state, rules, claim, score, contributors[..n], a);
      AmountAtConcat(Spread(f, contributors[..n]), f(contributors[n]), a);
      NonZeroAmount(Posting(contributors[n], WeightAmount(state, rules, claim, score, contributors[n])), a);
      assert contributors == contributors[..n] + [contributors[n]];
    }
  }

  /** A scored claim pays each of its contributors its consented share and nobody else anything. */
  lemma ClaimPays(state: LiveState, rules: Rules, scores: map<nat, int>, uid: nat, a: nat)
    requires uid in scores && uid in state.claims && SoundClaim(state.claims[uid])
    ensures var claim := state.claims[uid];
      AmountAt(ClaimPosting(state, rules, scores)(uid), a) == if a in claim.shares
        then Paid(scores[uid], claim.shares[a], claim.totalShares, Consent(state, claim, a, S, rules.unacceptedMult))
        else 0
  {
    var claim := state.claims[uid];
    AscendingNatsMembers(claim.shares.Keys);
    if a in claim.shares { WeightIsPaid(state, rules, claim, scores[uid], a); }
    if scores[uid] == 0 {
      assert AmountsAt<nat>([], a) == [];
      if a in claim.shares {
        PaidOfNothing(claim.shares[a], claim.totalShares, Consent(state, claim, a, S, rules.unacceptedMult));
      }
    } else {
      WeightsAt(state, rules, claim, scores[uid], AscendingNats(claim.shares.Keys), a);
    }
  }

  lemma PaidOfNothing(share: int, total: int, consent: int)
    requires total > 0
    ensures Paid(0, share, total, consent) == 0
  {
    FpMulZero(0, share * S / total);
    FpMulZero(0, consent);
  }

  /** What an account earns from one claim. */
  ghost function EarnedFrom(state: LiveState, rules: Rules, scores: map<nat, int>, a: nat, uid: nat): int
    requires SoundState(state) && uid in scores
  {
    if uid in state.claims && a in state.claims[uid].shares
    then Paid(scores[uid], state.claims[uid].shares[a], state.claims[uid].totalShares,
      Consent(state, state.claims[uid], a, S, rules.unacceptedMult))
    else 0
  }

  ghost function Earned(state: LiveState, rules: Rules, scores: map<nat, int>, a: nat): map<nat, int>
    requires SoundState(state)
  {
    map uid | uid in scores :: EarnedFrom(state, rules, scores, a, uid)
  }

  lemma ClaimEarns(state: LiveState, rules: Rules, scores: map<nat, int>, uid: nat, a: nat)
    requires SoundState(state) && uid in scores
    ensures AmountAt(ClaimPosting(state, rules, scores)(uid), a) == EarnedFrom(state, rules, scores, a, uid)
  {
    if uid in state.claims { ClaimPays(state, rules, scores, uid, a); } else { assert AmountsAt<nat>([], a) == []; }
  }

  lemma EarnedAlong(state: LiveState, rules: Rules, scores: map<nat, int>, a: nat, uids: seq<nat>, amounts: seq<int>)
    requires SoundState(state) && amounts == AmountsFrom(ClaimPosting(state, rules, scores), uids, a)
    requires forall i :: 0 <= i < |uids| ==> uids[i] in scores
    ensures amounts == Along(Earned(state, rules, scores, a), uids)
  {
    forall i | 0 <= i < |uids| ensures amounts[i] == EarnedFrom(state, rules, scores, a, uids[i]) {
      ClaimEarns(state, rules, scores, uids[i], a);
    }
  }

  lemma WeightsTallied(state: LiveState, rules: Rules, scores: map<nat, int>, uids: seq<nat>, a: nat)
    requires uids == AscendingNats(scores.Keys)
    ensures Get(ContributorWeights(state, rules, scores), a)
      == AmountAt(Spread(ClaimPosting(state, rules, scores), uids), a)
    ensures Total(ContributorWeights(state, rules, scores)) == Posted(Spread(ClaimPosting(state, rules, scores), uids))
  {
    TallyAt(WeightPostings(state, rules, scores), a);
    TallyTotal(WeightPostings(state, rules, scores));
  }

  lemma EarnedSum(state: LiveState, rules: Rules, scores: map<nat, int>, uids: seq<nat>, a: nat)
    requires SoundState(state) && uids == AscendingNats(scores.Keys)
    ensures Sum(AmountsFrom(ClaimPosting(state, rules, scores), uids, a)) == Total(Earned(state, rules, scores, a))
  {
    var amounts := AmountsFrom(ClaimPosting(state, rules, scores), uids, a);
    EarnedAlong(state, rules, scores, a, uids, amounts);
    AscendingSum(Earned(state, rules, scores, a), scores.Keys, uids, amounts);
  }

  /** A contributor's weight is what it earns from all scored claims together. */
  lemma WeightIsEarned(state: LiveState, rules: Rules, scores: map<nat, int>, a: nat)
    requires SoundState(state)
    ensures Get(ContributorWeights(state, rules, scores), a) == Total(Earned(state, rules, scores, a))
  {
    var uids := AscendingNats(scores.Keys);
    WeightsTallied(state, rules, scores, uids, a);
    SpreadAmount(ClaimPosting(state, rules, scores), uids, a);
    EarnedSum(state, rules, scores, uids, a);
  }

  lemma AscendingSum(m: map<nat, int>, keys: set<nat>, uids: seq<nat>, amounts: seq<int>)
    requires m.Keys == keys && uids == AscendingNats(keys) && amounts == Along(m, uids)
    ensures Sum(amounts) == Total(m)
  {
    TotalAscending(m, uids);
  }

  // ---- refusing, silent and accepting contributors ----------------------------------

  /** Whoever refuses a claim earns nothing from it, whatever its score. */
  lemma RefusalPaysNothing(state: LiveState, rules: Rules, scores: map<nat, int>, uid: nat, a: nat)
    requires SoundState(state) && uid in scores && uid in state.claims && state.claims[uid].uid == uid
    requires (uid, a) in state.responses && state.responses[(uid, a)] != 1
    ensures EarnedFrom(state, rules, scores, a, uid) == 0
  {
    if a in state.claims[uid].shares {
      FpMulZero(FpMul(scores[uid], state.claims[uid].shares[a] * S / state.claims[uid].totalShares), 0);
    }
  }

  lemma ShareAtMostOne(claim: LiveClaim, a: nat)
    requires SoundClaim(claim) && a in claim.shares
    ensures 0 <= claim.shares[a] * S / claim.totalShares <= S
  {
    TotalAtLeast(claim.shares, a);
    DivisionMonotone(0, claim.shares[a] * S, claim.totalShares);
    Scaled(S, claim.shares[a], claim.totalShares);
    DivisionMonotone(claim.shares[a] * S, S * claim.totalShares, claim.totalShares);
    assert S * claim.totalShares / claim.totalShares == S;
  }

  lemma FpMulMonotoneIn(a: int, b: int, c: int)
    requires a <= b && c >= 0
    ensures FpMul(a, c) <= FpMul(b, c)
  {
    Scaled(c, a, b);
    DivisionMonotone(a * c, b * c, S);
  }

  /** A nominee who never answers earns at most the unaccepted part of the claim's score. */
  lemma SilentNomineeCapped(state: LiveState, rules: Rules, scores: map<nat, int>, uid: nat, a: nat)
    requires SoundState(state) && uid in scores && uid in state.claims && state.claims[uid].uid == uid
    requires scores[uid] >= 0 && (uid, a) !in state.responses && a != state.claims[uid].attester
    ensures 0 <= EarnedFrom(state, rules, scores, a, uid) <= FpMul(scores[uid], rules.unacceptedMult)
  {
    var claim, score := state.claims[uid], scores[uid];
    FpMulNonNegative(score, rules.unacceptedMult);
    if a in claim.shares {
      var ratio := claim.shares[a] * S / claim.totalShares;
      ShareAtMostOne(claim, a);
      FpMulShrinks(score, ratio);
      FpMulMonotoneIn(FpMul(score, ratio), score, rules.unacceptedMult);
      FpMulNonNegative(FpMul(score, ratio), rules.unacceptedMult);
    }
  }

  /** Whoever accepts, and the silent attester, earns the whole share. */
  lemma AcceptancePaysInFull(state: LiveState, rules: Rules, scores: map<nat, int>, uid: nat, a: nat)
    requires SoundState(state) && uid in scores && uid in state.claims && state.claims[uid].uid == uid
    requires a in state.claims[uid].shares && Accepts(state, uid, a)
    ensures EarnedFrom(state, rules, scores, a, uid)
      == FpMul(scores[uid], state.claims[uid].shares[a] * S / state.claims[uid].totalShares)
  {
    WholeFactor(FpMul(scores[uid], state.claims[uid].shares[a] * S / state.claims[uid].totalShares));
  }

  lemma WholeFactor(x: int)
    ensures FpMul(x, S) == x
  {
  }

  /** The account accepted the claim, or made it and never answered. */
  ghost predicate Accepts(state: LiveState, uid: nat, a: nat) {
    if (uid, a) in state.responses then state.responses[(uid, a)] == 1
    else uid in state.claims && a == state.claims[uid].attester
  }

  // ---- nothing but truncation is lost -----------------------------------------------

  /** Fractions of an amount, twice floored, miss it by less than `amount / S + 1` a part. */
  lemma SplitAlmost(amount: int, parts: seq<int>, whole: int)
    requires amount >= 0 && whole > 0 && Sum(parts) == whole
    ensures S * Sum(Products(amount, Ratios(parts, whole))) > LeastPaid(amount, |parts|)
  {
    var ratios := Ratios(parts, whole);
    var products := Products(amount, ratios);
    var ones := seq(|parts|, _ => 1);
    SumConstant(ones, 1);
    RatiosAlmostOne(parts, whole);
    forall i | 0 <= i < |ratios| ensures amount * ratios[i] <= S * products[i] + (S - 1) * ones[i] {
      FpMulBounds(amount, ratios[i]);
    }
    SumDominated(ratios, products, ones, amount, S, S - 1);
    SplitAlmostArithmetic(amount, |parts|, Sum(ratios), Sum(products));
  }

  lemma SplitAlmostArithmetic(amount: int, n: nat, ratios: int, products: int)
    requires amount >= 0 && ratios > S - n && amount * ratios <= S * products + (S - 1) * n && n > 0
    ensures S * products > S * amount - n * (amount + S)
  {
    Scaled(amount, S - n + 1, ratios);
    assert amount * (S - n + 1) == amount * S - amount * n + amount;
    assert n * (amount + S) == n * amount + n * S;
  }

  /** What a claim of `n` contributors pays out at least, times the scale. */
  function LeastPaid(score: int, n: nat): int { S * score - n * (score + S) }

  lemma LeastOfNothing(n: nat)
    requires n > 0
    ensures LeastPaid(0, n) < 0
  {
  }

  ghost predicate AllAccept(state: LiveState, uid: nat)
  {
    uid in state.claims && forall a :: a in state.claims[uid].shares ==> Accepts(state, uid, a)
  }

  lemma {:induction false} PostedInFull(state: LiveState, rules: Rules, claim: LiveClaim, score: int,
                                        contributors: seq<nat>)
    requires SoundClaim(claim) && forall i :: 0 <= i < |contributors| ==> contributors[i] in claim.shares
    requires forall i :: 0 <= i < |contributors| ==>
      Consent(state, claim, contributors[i], S, rules.unacceptedMult) == S
    ensures Posted(Spread(WeightPosting(state, rules, claim, score), contributors))
      == Sum(Products(score, Ratios(Along(claim.shares, contributors), claim.totalShares)))
  {
    var f := WeightPosting(state, rules, claim, score);
    PostedNone<nat>();
    if contributors != [] {
      var n := |contributors| - 1;
      var a := contributors[n];
      var products := Products(score, Ratios(Along(claim.shares, contributors), claim.totalShares));
      PostedInFull(state, rules, claim, score, contributors[..n]);
      PostedConcat(Spread(f, contributors[..n]), f(a));
      NonZeroAmount(Posting(a, WeightAmount(state, rules, claim, score, a)), a);
      WeightIsPaid(state, rules, claim, score, a);
      WholeFactor(FpMul(score, claim.shares[a] * S / claim.totalShares));
      assert products[..n] == Products(score, Ratios(Along(claim.shares, contributors[..n]), claim.totalShares));
    }
  }

  lemma AcceptedNothing(claim: LiveClaim)
    requires SoundClaim(claim)
    ensures |claim.shares.Keys| > 0
  {
    assert claim.shares != map[];
    var a :| a in claim.shares.Keys;
  }

  lemma AllConsent(state: LiveState, rules: Rules, uid: nat, contributors: seq<nat>)
    requires AllAccept(state, uid) && state.claims[uid].uid == uid
    requires forall i :: 0 <= i < |contributors| ==> contributors[i] in state.claims[uid].shares
    ensures forall i :: 0 <= i < |contributors| ==>
      Consent(state, state.claims[uid], contributors[i], S, rules.unacceptedMult) == S
  {
    forall i | 0 <= i < |contributors|
      ensures Consent(state, state.claims[uid], contributors[i], S, rules.unacceptedMult) == S
    {
      assert Accepts(state, uid, contributors[i]);
    }
  }

  lemma PaysOut(state: LiveState, rules: Rules, claim: LiveClaim, score: int, contributors: seq<nat>)
    requires SoundClaim(claim) && score >= 0 && contributors == AscendingNats(claim.shares.Keys)
    requires forall i :: 0 <= i < |contributors| ==>
      Consent(state, claim, contributors[i], S, rules.unacceptedMult) == S
    ensures S * Posted(Spread(WeightPosting(state, rules, claim, score), contributors))
      > LeastPaid(score, |contributors|)
  {
    AscendingNatsMembers(claim.shares.Keys);
    TotalAscending(claim.shares, contributors);
    SplitAlmost(score, Along(claim.shares, contributors), claim.totalShares);
    PostedInFull(state, rules, claim, score, contributors);
  }

  /** A claim that all its contributors accept pays out its whole score but for truncation:
      less than `score / S + 1` a contributor. */
  lemma AcceptedClaimPaysOut(state: LiveState, rules: Rules, scores: map<nat, int>, uid: nat)
    requires SoundState(state) && uid in scores && scores[uid] >= 0 && AllAccept(state, uid)
    requires state.claims[uid].uid == uid
    ensures var n := |state.claims[uid].shares.Keys|;
      S * Posted(ClaimPosting(state, rules, scores)(uid)) > LeastPaid(scores[uid], n)
  {
    var claim := state.claims[uid];
    var contributors := AscendingNats(claim.shares.Keys);
    AcceptedNothing(claim);
    if scores[uid] == 0 {
      PostedNone<nat>();
      LeastOfNothing(|claim.shares.Keys|);
    } else {
      AllConsent(state, rules, uid, contributors);
      PaysOut(state, rules, claim, scores[uid], contributors);
    }
  }

  lemma {:induction false} SpreadAtLeast<T, K>(f: T -> seq<Posting<K>>, s: seq<T>, floors: seq<int>)
    requires |floors| == |s| && forall i :: 0 <= i < |s| ==> S * Posted(f(s[i])) >= floors[i]
    ensures S * Posted(Spread(f, s)) >= Sum(floors)
  {
    PostedNone<K>();
    if s != [] {
      var n := |s| - 1;
      SpreadAtLeast(f, s[..n], floors[..n]);
      PostedConcat(Spread(f, s[..n]), f(s[n]));
    }
  }

  /** Every scored claim is accepted by all its contributors. */
  ghost predicate EverybodyAccepts(state: LiveState, scores: map<nat, int>) {
    forall uid :: uid in scores ==> AllAccept(state, uid) && state.claims[uid].uid == uid
  }

  /** What the claims pay out at least, times the scale. */
  ghost function Floors(claims: Claims, scores: map<nat, int>): (r: map<nat, int>)
    ensures r.Keys == scores.Keys
  {
    map uid | uid in scores :: if uid in claims then LeastPaid(scores[uid], |claims[uid].shares.Keys|) else 0
  }

  lemma FloorHolds(state: LiveState, rules: Rules, scores: map<nat, int>, uid: nat)
    requires SoundState(state) && NonNegative(scores) && EverybodyAccepts(state, scores) && uid in scores
    ensures S * Posted(ClaimPosting(state, rules, scores)(uid)) >= Floors(state.claims, scores)[uid]
  {
    assert AllAccept(state, uid);
    AcceptedClaimPaysOut(state, rules, scores, uid);
  }

  lemma FloorsHold(state: LiveState, rules: Rules, scores: map<nat, int>, uids: seq<nat>)
    requires SoundState(state) && NonNegative(scores) && EverybodyAccepts(state, scores)
    requires forall i :: 0 <= i < |uids| ==> uids[i] in scores
    ensures S * Posted(Spread(ClaimPosting(state, rules, scores), uids))
      >= Sum(Along(Floors(state.claims, scores), uids))
  {
    var f, floors := ClaimPosting(state, rules, scores), Floors(state.claims, scores);
    forall i | 0 <= i < |uids| ensures S * Posted(f(uids[i])) >= Along(floors, uids)[i] {
      FloorHolds(state, rules, scores, uids[i]);
    }
    SpreadAtLeast(f, uids, Along(floors, uids));
  }

  lemma FloorsTotal(floors: map<nat, int>, keys: set<nat>, uids: seq<nat>, paid: int, posted: int)
    requires floors.Keys == keys && uids == AscendingNats(keys)
    requires S * posted >= Sum(Along(floors, uids)) && paid == posted
    ensures S * paid >= Total(floors)
  {
    TotalAscending(floors, uids);
  }

  /** With every scored claim accepted, the contributors together receive the claim scores but for truncation. */
  lemma AcceptedRoundPaysOut(state: LiveState, rules: Rules, scores: map<nat, int>)
    requires SoundState(state) && NonNegative(scores) && EverybodyAccepts(state, scores)
    ensures S * Total(ContributorWeights(state, rules, scores)) >= Total(Floors(state.claims, scores))
  {
    var uids := AscendingNats(scores.Keys);
    WeightsTallied(state, rules, scores, uids, 0);
    FloorsHold(state, rules, scores, uids);
    FloorsTotal(Floors(state.claims, scores), scores.Keys, uids, Total(ContributorWeights(state, rules, scores)),
      Posted(Spread(ClaimPosting(state, rules, scores), uids)));
  }
}
