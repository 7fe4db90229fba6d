/** Which feedback record speaks for each reviewer and target:
    the decisions of `core` in research/erc8004-reputation/reference.ts. */
module Feedback {
  import opened Wrappers
  import opened Ordering

  datatype Attribution = Attributed | Unattributed | Ambiguous

  datatype Feedback = Feedback(
    id: nat, chainId: nat, reputationRegistry: nat, identityRegistry: nat, target: nat,
    attribution: Attribution, reviewer: Option<nat>, value: int, valueDecimals: nat, tag: nat, unit: nat,
    revokedBlock: Option<nat>, blockNumber: nat, transactionIndex: nat, logIndex: nat)

  datatype Reason =
    | RegistryMismatch | AfterCutoff | TargetNotInUniverse | TagMismatch | UnitMismatch | DecimalsMismatch
    | ReviewerUnattributed | ReviewerAmbiguous | ReviewerNotEligible | SelfFeedback | ValueOutOfRange | Revoked

  datatype Policy = Policy(
    chainId: nat, reputationRegistry: nat, identityRegistry: nat, blockCutoff: nat,
    tag: nat, unit: nat, valueDecimals: nat, minimum: int, maximum: int, targets: set<nat>)

  type Pair = (nat, nat)

  datatype Decision = Excluded(reason: Reason) | Superseded(pair: Pair) | Included(pair: Pair)

  /** `reasonFor`: the first test that fails. */
  function ReasonFor(policy: Policy, reviewers: set<nat>, r: Feedback): Option<Reason>
  {
    if r.chainId != policy.chainId || r.reputationRegistry != policy.reputationRegistry
       || r.identityRegistry != policy.identityRegistry then Some(RegistryMismatch)
    else if r.blockNumber > policy.blockCutoff then Some(AfterCutoff)
    else if r.target !in policy.targets then Some(TargetNotInUniverse)
    else if r.tag != policy.tag then Some(TagMismatch)
    else if r.unit != policy.unit then Some(UnitMismatch)
    else if r.valueDecimals != policy.valueDecimals then Some(DecimalsMismatch)
    else if r.attribution == Unattributed then Some(ReviewerUnattributed)
    else if r.attribution == Ambiguous then Some(ReviewerAmbiguous)
    else if r.reviewer.None? || r.reviewer.value !in reviewers then Some(ReviewerNotEligible)
    else if r.reviewer.value == r.target then Some(SelfFeedback)
    else if r.value < policy.minimum || r.value > policy.maximum then Some(ValueOutOfRange)
    else if r.revokedBlock.Some? && r.revokedBlock.value <= policy.blockCutoff then Some(Revoked)
    else None
  }

  predicate Eligible(policy: Policy, reviewers: set<nat>, r: Feedback) { ReasonFor(policy, reviewers, r).None? }

  /** `comparePosition`: block, transaction, log entry, and last the id. */
  predicate PositionLe(a: Feedback, b: Feedback) {
    if a.blockNumber != b.blockNumber then a.blockNumber < b.blockNumber
    else if a.transactionIndex != b.transactionIndex then a.transactionIndex < b.transactionIndex
    else if a.logIndex != b.logIndex then a.logIndex < b.logIndex
    else a.id <= b.id
  }

  lemma PositionIsPreorder()
    ensures TotalPreorder(PositionLe)
  {
  }

  /** Feedback ids are unique, which the policy validation enforces. */
  ghost predicate UniqueIds(records: seq<Feedback>) {
    && Distinct(records)
    && forall r, s :: r in records && s in records && r.id == s.id ==> r == s
  }

  function PairOf(r: Feedback): Pair { (if r.reviewer.Some? then r.reviewer.value else 0, r.target) }

  function OfPair(p: Pair): Feedback -> bool { r => PairOf(r) == p }

  function EligibleFor(policy: Policy, reviewers: set<nat>): Feedback -> bool { r => Eligible(policy, reviewers, r) }

  /** The simple rule: the canonically latest eligible record of its pair. */
  ghost predicate Speaks(policy: Policy, reviewers: set<nat>, records: seq<Feedback>, r: Feedback) {
    && r in records && Eligible(policy, reviewers, r)
    && forall s :: s in records && Eligible(policy, reviewers, s) && PairOf(s) == PairOf(r) ==> PositionLe(s, r)
  }

  ghost function Verdict(policy: Policy, reviewers: set<nat>, records: seq<Feedback>, r: Feedback): Decision
  {
    match ReasonFor(policy, reviewers, r)
    case Some(reason) => Excluded(reason)
    case None => if Speaks(policy, reviewers, records, r) then Included(PairOf(r)) else Superseded(PairOf(r))
  }

  ghost predicate Decided(policy: Policy, reviewers: set<nat>, records: seq<Feedback>, decisions: map<nat, Decision>,
                          done: set<Feedback>) {
    forall r :: r in done ==>
      r in records && r.id in decisions && decisions[r.id] == Verdict(policy, reviewers, records, r)
  }

  lemma DecidedOneMore(policy: Policy, reviewers: set<nat>, records: seq<Feedback>, decisions: map<nat, Decision>,
                       done: set<Feedback>, r: Feedback)
    requires UniqueIds(records) && Decided(policy, reviewers, records, decisions, done) && r in records
    ensures Decided(policy, reviewers, records, decisions[r.id := Verdict(policy, reviewers, records, r)], done + {r})
  {
    forall s | s in done + {r}
      ensures s in records
        && decisions[r.id := Verdict(policy, reviewers, records, r)][s.id] == Verdict(policy, reviewers, records, s)
    {
      assert s.id == r.id ==> s == r;
    }
  }

  // ---- the loops --------------------------------------------------------------

  ghost predicate AllFrom(list: seq<Feedback>, records: seq<Feedback>) { forall r :: r in list ==> r in records }

  function Unfit(policy: Policy, reviewers: set<nat>): Feedback -> bool { r => !Eligible(policy, reviewers, r) }

  lemma SplitSnoc(policy: Policy, reviewers: set<nat>, s: seq<Feedback>, i: nat)
    requires i < |s|
    ensures Eligible(policy, reviewers, s[i]) ==>
      && Filter(EligibleFor(policy, reviewers), s[..i + 1]) == Filter(EligibleFor(policy, reviewers), s[..i]) + [s[i]]
      && Members(Filter(Unfit(policy, reviewers), s[..i + 1])) == Members(Filter(Unfit(policy, reviewers), s[..i]))
    ensures !Eligible(policy, reviewers, s[i]) ==>
      && Filter(EligibleFor(policy, reviewers), s[..i + 1]) == Filter(EligibleFor(policy, reviewers), s[..i])
      && Members(Filter(Unfit(policy, reviewers), s[..i + 1]))
        == Members(Filter(Unfit(policy, reviewers), s[..i])) + {s[i]}
  {
    FilterSnoc(EligibleFor(policy, reviewers), s, i);
    FilterSnoc(Unfit(policy, reviewers), s, i);
  }

  /** The records with a reason against them are decided; the others are candidates. */
  method Screen(policy: Policy, reviewers: set<nat>, ghost records: seq<Feedback>, sorted: seq<Feedback>)
    returns (decisions: map<nat, Decision>, candidates: seq<Feedback>)
    requires UniqueIds(records) && AllFrom(sorted, records)
    ensures candidates == Filter(EligibleFor(policy, reviewers), sorted)
    ensures Decided(policy, reviewers, records, decisions, Members(Filter(Unfit(policy, reviewers), sorted)))
  {
    decisions, candidates := map[], [];
    for i := 0 to |sorted|
      invariant candidates == Filter(EligibleFor(policy, reviewers), sorted[..i])
      invariant Decided(policy, reviewers, records, decisions, Members(Filter(Unfit(policy, reviewers), sorted[..i])))
    {
      var record := sorted[i];
      SplitSnoc(policy, reviewers, sorted, i);
      var reason := ReasonFor(policy, reviewers, record);
      if reason.Some? {
        DecidedOneMore(policy, reviewers, records, decisions, Members(Filter(Unfit(policy, reviewers), sorted[..i])),
          record);
        decisions := decisions[record.id := Excluded(reason.value)];
      } else {
        candidates := candidates + [record];
      }
    }
    assert sorted[..|sorted|] == sorted;
  }

  ghost predicate Grouped(byPair: map<Pair, seq<Feedback>>, candidates: seq<Feedback>) {
    && (forall p :: p in byPair ==> byPair[p] == Filter(OfPair(p), candidates) != [])
    && forall p :: p !in byPair ==> Filter(OfPair(p), candidates) == []
  }

  lemma GroupedSnoc(byPair: map<Pair, seq<Feedback>>, candidates: seq<Feedback>, i: nat)
    requires i < |candidates| && Grouped(byPair, candidates[..i])
    ensures var p := PairOf(candidates[i]);
      Grouped(byPair[p := (if p in byPair then byPair[p] else []) + [candidates[i]]], candidates[..i + 1])
  {
    forall p ensures Filter(OfPair(p), candidates[..i + 1])
      == Filter(OfPair(p), candidates[..i]) + (if PairOf(candidates[i]) == p then [candidates[i]] else [])
    {
      FilterSnoc(OfPair(p), candidates, i);
    }
  }

  method GroupByPair(candidates: seq<Feedback>) returns (byPair: map<Pair, seq<Feedback>>)
    ensures Grouped(byPair, candidates)
  {
    byPair := map[];
    for i := 0 to |candidates|
      invariant Grouped(byPair, candidates[..i])
    {
      GroupedSnoc(byPair, candidates, i);
      var p := PairOf(candidates[i]);
      byPair := byPair[p := (if p in byPair then byPair[p] else []) + [candidates[i]]];
    }
    assert candidates[..|candidates|] == candidates;
  }

  /** `list` holds exactly the eligible records of one pair. */
  ghost predicate IsPairList(policy: Policy, reviewers: set<nat>, records: seq<Feedback>, p: Pair,
                             list: seq<Feedback>) {
    list != [] && forall r :: r in list <==> r in records && Eligible(policy, reviewers, r) && PairOf(r) == p
  }

  /** Of a sorted pair list the last record speaks, and no other. */
  lemma LastSpeaks(policy: Policy, reviewers: set<nat>, records: seq<Feedback>, p: Pair, ordered: seq<Feedback>, i: nat)
    requires UniqueIds(records) && IsPairList(policy, reviewers, records, p, ordered)
    requires Sorted(PositionLe, ordered) && Distinct(ordered) && i < |ordered|
    ensures Verdict(policy, reviewers, records, ordered[i]) == if i == |ordered| - 1 then Included(p) else Superseded(p)
  {
    var last := ordered[|ordered| - 1];
    assert ordered[i] in ordered && last in ordered;
    if i < |ordered| - 1 {
      assert PositionLe(ordered[i], last) && ordered[i] != last;
      assert ordered[i].id != last.id;
      assert !PositionLe(last, ordered[i]);
    } else {
      forall s | s in ordered ensures PositionLe(s, last) {
        var j :| 0 <= j < |ordered| && ordered[j] == s;
        assert PositionLe(last, last);
      }
    }
  }

  /** Decide one pair: everything but the last record is superseded. */
  method DecidePair(ghost policy: Policy, ghost reviewers: set<nat>, ghost records: seq<Feedback>,
                    decisions: map<nat, Decision>, ghost done: set<Feedback>, p: Pair, list: seq<Feedback>)
    returns (r: map<nat, Decision>)
    requires UniqueIds(records) && Decided(policy, reviewers, records, decisions, done)
    requires IsPairList(policy, reviewers, records, p, list) && Distinct(list)
    ensures Decided(policy, reviewers, records, r, done + Members(list))
  {
    var ordered := SortBy(PositionLe, list);
    PositionIsPreorder();
    SortSorted(PositionLe, list);
    SortDistinct(PositionLe, list);
    SortMembers(PositionLe, list);
    r := decisions;
    var n := |ordered| - 1;
    for i := 0 to n
      invariant Decided(policy, reviewers, records, r, done + Members(ordered[..i]))
    {
      LastSpeaks(policy, reviewers, records, p, ordered, i);
      DecidedOneMore(policy, reviewers, records, r, done + Members(ordered[..i]), ordered[i]);
      MembersSnoc(ordered, i);
      assert done + Members(ordered[..i]) + {ordered[i]} == done + Members(ordered[..i + 1]);
      r := r[ordered[i].id := Superseded(p)];
    }
    LastSpeaks(policy, reviewers, records, p, ordered, n);
    DecidedOneMore(policy, reviewers, records, r, done + Members(ordered[..n]), ordered[n]);
    MembersSnoc(ordered, n);
    assert ordered[..n + 1] == ordered;
    assert done + Members(ordered[..n]) + {ordered[n]} == done + Members(list);
    r := r[ordered[n].id := Included(p)];
  }

  ghost function Listed(byPair: map<Pair, seq<Feedback>>, pairs: seq<Pair>): set<Feedback>
    requires forall i :: 0 <= i < |pairs| ==> pairs[i] in byPair
  {
    if pairs == [] then {} else Listed(byPair, pairs[..|pairs| - 1]) + Members(byPair[pairs[|pairs| - 1]])
  }

  lemma {:induction false} ListedMember(byPair: map<Pair, seq<Feedback>>, pairs: seq<Pair>, p: Pair, r: Feedback)
    requires (forall i :: 0 <= i < |pairs| ==> pairs[i] in byPair) && p in pairs && r in byPair[p]
    ensures r in Listed(byPair, pairs)
  {
    var n := |pairs| - 1;
    if p != pairs[n] {
      assert pairs == pairs[..n] + [pairs[n]];
      ListedMember(byPair, pairs[..n], p, r);
    }
  }

  lemma PairListOf(policy: Policy, reviewers: set<nat>, records: seq<Feedback>, candidates: seq<Feedback>, p: Pair)
    requires Distinct(candidates) && forall r :: r in candidates <==> r in records && Eligible(policy, reviewers, r)
    requires Filter(OfPair(p), candidates) != []
    ensures IsPairList(policy, reviewers, records, p, Filter(OfPair(p), candidates))
      && Distinct(Filter(OfPair(p), candidates))
  {
    FilterMembers(OfPair(p), candidates);
    FilterDistinct(OfPair(p), candidates);
  }

  ghost predicate KeysOf(byPair: map<Pair, seq<Feedback>>, pairs: seq<Pair>)
  {
    forall i :: 0 <= i < |pairs| ==> pairs[i] in byPair
  }

  ghost predicate PairLists(policy: Policy, reviewers: set<nat>, records: seq<Feedback>,
                            byPair: map<Pair, seq<Feedback>>) {
    forall p :: p in byPair ==> IsPairList(policy, reviewers, records, p, byPair[p]) && Distinct(byPair[p])
  }

  lemma ListedSnoc(byPair: map<Pair, seq<Feedback>>, pairs: seq<Pair>, i: nat, done: set<Feedback>)
    requires i < |pairs| && KeysOf(byPair, pairs)
    ensures done + Listed(byPair, pairs[..i]) + Members(byPair[pairs[i]]) == done + Listed(byPair, pairs[..i + 1])
  {
    assert pairs[..i + 1][..i] == pairs[..i];
  }

  /** The loop over the pairs. */
  method DecidePairs(ghost policy: Policy, ghost reviewers: set<nat>, ghost records: seq<Feedback>,
                     decisions: map<nat, Decision>, ghost done: set<Feedback>, byPair: map<Pair, seq<Feedback>>,
                     pairs: seq<Pair>)
    returns (r: map<nat, Decision>)
    requires UniqueIds(records) && Decided(policy, reviewers, records, decisions, done)
    requires KeysOf(byPair, pairs) && PairLists(policy, reviewers, records, byPair)
    ensures Decided(policy, reviewers, records, r, done + Listed(byPair, pairs))
  {
    r := decisions;
    for i := 0 to |pairs|
      invariant Decided(policy, reviewers, records, r, done + Listed(byPair, pairs[..i]))
    {
      var p := pairs[i];
      assert IsPairList(policy, reviewers, records, p, byPair[p]);
      r := DecidePair(policy, reviewers, records, r, done + Listed(byPair, pairs[..i]), p, byPair[p]);
      ListedSnoc(byPair, pairs, i, done);
    }
    assert pairs[..|pairs|] == pairs;
  }

  method DecideGroups(ghost policy: Policy, ghost reviewers: set<nat>, ghost records: seq<Feedback>,
                      decisions: map<nat, Decision>, ghost done: set<Feedback>, byPair: map<Pair, seq<Feedback>>,
                      ghost candidates: seq<Feedback>)
    returns (r: map<nat, Decision>)
    requires UniqueIds(records) && Decided(policy, reviewers, records, decisions, done)
    requires Distinct(candidates) && forall s :: s in candidates <==> s in records && Eligible(policy, reviewers, s)
    requires Grouped(byPair, candidates)
    ensures Decided(policy, reviewers, records, r, done + Members(candidates))
  {
    PairLeIsTotalOrder();
    var pairs := Ascending(PairLe, byPair.Keys);
    assert KeysOf(byPair, pairs) by { assert forall i :: 0 <= i < |pairs| ==> pairs[i] in pairs; }
    forall p | p in byPair ensures IsPairList(policy, reviewers, records, p, byPair[p]) && Distinct(byPair[p]) {
      PairListOf(policy, reviewers, records, candidates, p);
    }
    r := DecidePairs(policy, reviewers, records, decisions, done, byPair, pairs);
    forall s | s in candidates ensures s in Listed(byPair, pairs) { CandidateListed(byPair, candidates, pairs, s); }
  }

  lemma CandidateListed(byPair: map<Pair, seq<Feedback>>, candidates: seq<Feedback>, pairs: seq<Pair>, s: Feedback)
    requires Grouped(byPair, candidates) && (forall p :: p in pairs <==> p in byPair) && s in candidates
    ensures s in Listed(byPair, pairs)
  {
    FilterMember(OfPair(PairOf(s)), candidates, s);
    ListedMember(byPair, pairs, PairOf(s), s);
  }

  /** `sorted.filter((record) => decisions.get(record.id)?.included)`. */
  function Includes(decisions: map<nat, Decision>): Feedback -> bool {
    (r: Feedback) => r.id in decisions && decisions[r.id].Included?
  }

  /** Every record's decision follows the simple rule, and the included records come in canonical order. */
  method Decide(policy: Policy, reviewers: set<nat>, records: seq<Feedback>)
    returns (decisions: map<nat, Decision>, included: seq<Feedback>)
    requires UniqueIds(records)
    ensures forall r :: r in records ==> r.id in decisions && decisions[r.id] == Verdict(policy, reviewers, records, r)
    ensures IsIncluded(policy, reviewers, records, included)
  {
    var sorted := SortBy(PositionLe, records);
    SortMembers(PositionLe, records);
    SortDistinct(PositionLe, records);
    var screened, candidates := Screen(policy, reviewers, records, sorted);
    CandidatesAre(policy, reviewers, records, sorted, candidates);
    var byPair := GroupByPair(candidates);
    ghost var unfit := Members(Filter(Unfit(policy, reviewers), sorted));
    decisions := DecideGroups(policy, reviewers, records, screened, unfit, byPair, candidates);
    forall r | r in records ensures r in unfit + Members(candidates) {
      FilterMember(Unfit(policy, reviewers), sorted, r);
    }
    included := Filter(Includes(decisions), sorted);
    IncludedAre(policy, reviewers, records, decisions, sorted);
  }

  lemma CandidatesAre(policy: Policy, reviewers: set<nat>, records: seq<Feedback>, sorted: seq<Feedback>,
                      candidates: seq<Feedback>)
    requires Distinct(sorted) && (forall r :: r in sorted <==> r in records)
    requires candidates == Filter(EligibleFor(policy, reviewers), sorted)
    ensures Distinct(candidates) && forall r :: r in candidates <==> r in records && Eligible(policy, reviewers, r)
  {
    FilterMembers(EligibleFor(policy, reviewers), sorted);
    FilterDistinct(EligibleFor(policy, reviewers), sorted);
  }

  /** Exactly the records that speak, each once, in canonical order. */
  ghost predicate IsIncluded(policy: Policy, reviewers: set<nat>, records: seq<Feedback>, included: seq<Feedback>) {
    && Sorted(PositionLe, included) && Distinct(included)
    && forall r :: r in included <==> Speaks(policy, reviewers, records, r)
  }

  lemma IncludedAre(policy: Policy, reviewers: set<nat>, records: seq<Feedback>, decisions: map<nat, Decision>,
                    sorted: seq<Feedback>)
    requires sorted == SortBy(PositionLe, records) && Distinct(sorted)
    requires forall r :: r in records ==> r.id in decisions && decisions[r.id] == Verdict(policy, reviewers, records, r)
    ensures IsIncluded(policy, reviewers, records, Filter(Includes(decisions), sorted))
  {
    PositionIsPreorder();
    SortSorted(PositionLe, records);
    SortMembers(PositionLe, records);
    FilterSorted(Includes(decisions), PositionLe, sorted);
    FilterDistinct(Includes(decisions), sorted);
    FilterMembers(Includes(decisions), sorted);
  }

  // ---- what the rule gives ----------------------------------------------------

  /** Each pair is spoken for at most once. */
  lemma OneVoicePerPair(policy: Policy, reviewers: set<nat>, records: seq<Feedback>, r: Feedback, s: Feedback)
    requires UniqueIds(records) && Speaks(policy, reviewers, records, r) && Speaks(policy, reviewers, records, s)
      && PairOf(r) == PairOf(s)
    ensures r == s
  {
    assert PositionLe(r, s) && PositionLe(s, r);
    assert r.id == s.id;
  }

  /** Each pair with an eligible record is spoken for. */
  lemma EveryPairSpokenFor(policy: Policy, reviewers: set<nat>, records: seq<Feedback>, r: Feedback)
    returns (s: Feedback)
    requires r in records && Eligible(policy, reviewers, r)
    ensures Speaks(policy, reviewers, records, s) && PairOf(s) == PairOf(r)
  {
    var list := Filter(OfPair(PairOf(r)), Filter(EligibleFor(policy, reviewers), records));
    FilterMembers(EligibleFor(policy, reviewers), records);
    FilterMembers(OfPair(PairOf(r)), Filter(EligibleFor(policy, reviewers), records));
    var ordered := SortBy(PositionLe, list);
    PositionIsPreorder();
    SortSorted(PositionLe, list);
    SortMembers(PositionLe, list);
    assert r in ordered;
    s := ordered[|ordered| - 1];
    assert s in ordered;
    forall t | t in ordered ensures PositionLe(t, s) {
      var j :| 0 <= j < |ordered| && ordered[j] == t;
      assert PositionLe(s, s);
    }
  }

  /** The included list depends on the set of records alone, not on how they are enumerated. */
  lemma EnumerationIrrelevant(policy: Policy, reviewers: set<nat>, a: seq<Feedback>, b: seq<Feedback>, x: seq<Feedback>,
                              y: seq<Feedback>)
    requires UniqueIds(a) && UniqueIds(b) && forall r :: r in a <==> r in b
    requires IsIncluded(policy, reviewers, a, x) && IsIncluded(policy, reviewers, b, y)
    ensures x == y
  {
    PositionIsPreorder();
    forall r ensures r in x <==> r in y {
      assert Speaks(policy, reviewers, a, r) <==> Speaks(policy, reviewers, b, r);
    }
    DistinctMembers(x, y);
    forall r, s | r in x && s in x && PositionLe(r, s) && PositionLe(s, r) ensures r == s {
      assert r in a && s in a && r.id == s.id;
    }
    SortedUnique(PositionLe, x, y);
  }

  /** A record with a reason against it could as well be absent: every other decision stays. */
  lemma ExcludedIsInert(policy: Policy, reviewers: set<nat>, a: seq<Feedback>, r: Feedback, b: seq<Feedback>,
                        s: Feedback)
    requires !Eligible(policy, reviewers, r) && s in a + b
    ensures Verdict(policy, reviewers, a + [r] + b, s) == Verdict(policy, reviewers, a + b, s)
  {
    forall t: Feedback ensures t in a + [r] + b <==> t in a + b || t == r {}
  }
}
