/** What the included feedback satisfies, and why the rest is left out:
    research/erc8004-reputation/reference.ts:501-609. */
module FeedbackAdmission {
  import opened Wrappers
  import opened Feedback

  /** The record is about this experiment: its registries, its subject, its unit, and its time. */
  ghost predicate OfThisExperiment(policy: Policy, r: Feedback) {
    && r.chainId == policy.chainId && r.reputationRegistry == policy.reputationRegistry
    && r.identityRegistry == policy.identityRegistry && r.blockNumber <= policy.blockCutoff
    && r.target in policy.targets && r.tag == policy.tag && r.unit == policy.unit
    && r.valueDecimals == policy.valueDecimals
  }

  /** An attributed reviewer of the policy speaks about somebody else, in range, and had not revoked by the cutoff. */
  ghost predicate Fit(policy: Policy, reviewers: set<nat>, r: Feedback) {
    && OfThisExperiment(policy, r)
    && r.attribution == Attributed && r.reviewer.Some? && r.reviewer.value in reviewers
    && r.reviewer.value != r.target && policy.minimum <= r.value <= policy.maximum
    && (r.revokedBlock.Some? ==> r.revokedBlock.value > policy.blockCutoff)
  }

  lemma FitIsEligible(policy: Policy, reviewers: set<nat>, r: Feedback)
    ensures Eligible(policy, reviewers, r) <==> Fit(policy, reviewers, r)
  {
  }

  /** `s` stands later in the chain: by block, transaction, log entry, and last by id. */
  ghost predicate Later(r: Feedback, s: Feedback) {
    || r.blockNumber < s.blockNumber
    || (r.blockNumber == s.blockNumber && r.transactionIndex < s.transactionIndex)
    || (r.blockNumber == s.blockNumber && r.transactionIndex == s.transactionIndex && r.logIndex < s.logIndex)
    || (r.blockNumber == s.blockNumber && r.transactionIndex == s.transactionIndex && r.logIndex == s.logIndex
        && r.id < s.id)
  }

  ghost predicate SamePair(r: Feedback, s: Feedback) { r.reviewer == s.reviewer && r.target == s.target }

  /** Exactly the fit records that no later fit record of the same reviewer and target supersedes are included. */
  lemma IncludedExactly(policy: Policy, reviewers: set<nat>, records: seq<Feedback>, included: seq<Feedback>,
                          r: Feedback)
    requires UniqueIds(records) && IsIncluded(policy, reviewers, records, included)
    ensures r in included <==>
      && r in records && Fit(policy, reviewers, r)
      && forall s :: s in records && Fit(policy, reviewers, s) && SamePair(r, s) ==> !Later(r, s)
  {
    FitIsEligible(policy, reviewers, r);
    if r in records && Fit(policy, reviewers, r) {
      forall s | s in records && Fit(policy, reviewers, s)
        ensures Eligible(policy, reviewers, s) && (PairOf(s) == PairOf(r) <==> SamePair(r, s))
        ensures PositionLe(s, r) <==> !Later(r, s)
      {
        FitIsEligible(policy, reviewers, s);
        assert s.id == r.id ==> s == r;
      }
      forall s | s in records && Eligible(policy, reviewers, s) ensures Fit(policy, reviewers, s) {
        FitIsEligible(policy, reviewers, s);
      }
    }
    assert r in included <==> Speaks(policy, reviewers, records, r);
  }
}
