/** What the two-stage blend guarantees: exact error bounds per account, the distance from the
    single-stage alternative of research/composition/simulate.ts, and the cap on one source's influence. */
module CompositionBounds {
  import opened Wrappers
  import opened Totals
  import opened Ordering
  import opened Sequences
  import opened FixedPoint
  import opened Hamilton
  import opened Composition

  // ---- what one source gives one account ---------------------------------

  ghost predicate Holds(v: ValidatedSource, account: nat) {
    exists j :: 0 <= j < |v.entries| && v.entries[j].key == account
  }

  ghost function ValueOf(v: ValidatedSource, account: nat): nat
  {
    if Holds(v, account) then var j :| 0 <= j < |v.entries| && v.entries[j].key == account; v.entries[j].value else 0
  }

  function Given(pool: nat, vs: seq<ValidatedSource>, i: nat, account: nat): int
    requires Ready(vs) && i < |vs|
  {
    AmountAt(SourcePostings(pool, vs, i), account)
  }

  lemma {:induction false} PositiveAbsent(shares: seq<Share>, account: nat)
    requires forall j :: 0 <= j < |shares| ==> shares[j].key != account
    ensures AmountAt(Positive(shares), account) == 0
  {
    if shares != [] {
      var n := |shares| - 1;
      PositiveAbsent(shares[..n], account);
      var p := Posting(shares[n].key, shares[n].allocation);
      AmountAtSnoc(Positive(shares[..n]), p, account);
      assert Positive(shares[..n]) + [] == Positive(shares[..n]);
    }
  }

  lemma {:induction false} PositiveAt(shares: seq<Share>, j: nat)
    requires j < |shares| && forall a, b :: 0 <= a < b < |shares| ==> shares[a].key != shares[b].key
    ensures AmountAt(Positive(shares), shares[j].key) == shares[j].allocation
  {
    var n := |shares| - 1;
    var account := shares[j].key;
    if j == n { PositiveAbsent(shares[..n], account); } else { PositiveAt(shares[..n], j); }
    var p := Posting(shares[n].key, shares[n].allocation);
    AmountAtSnoc(Positive(shares[..n]), p, account);
    assert Positive(shares[..n]) + [] == Positive(shares[..n]);
  }

  /** A source gives an account what the split allots to its entry, and nothing without one. */
  lemma GivenMeaning(pool: nat, vs: seq<ValidatedSource>, i: nat, account: nat) returns (j: nat)
    requires Ready(vs) && i < |vs|
    ensures !Holds(vs[i], account) ==> Given(pool, vs, i, account) == 0
    ensures Holds(vs[i], account) ==> (
      && j < |vs[i].entries| && vs[i].entries[j].key == account
      && vs[i].entries[j].value == ValueOf(vs[i], account)
      && Given(pool, vs, i, account) == Split(Quota(pool, vs, i), vs[i])[j].allocation)
  {
    var v := vs[i];
    var shares := Split(Quota(pool, vs, i), v);
    ApportionedIsLargestRemainder(Quota(pool, vs, i), v.totalValue, v.entries);
    assert forall k :: 0 <= k < |shares| ==> SameItem(shares[k], v.entries[k]);
    j := 0;
    if Holds(v, account) {
      j :| 0 <= j < |v.entries| && v.entries[j].key == account && v.entries[j].value == ValueOf(v, account);
      assert shares[j].key == account;
      PositiveAt(shares, j);
    } else {
      PositiveAbsent(shares, account);
    }
  }

  /** Two floors, two errors: each below one unit of its own stage. */
  lemma TwoStageStep(weightScale: int, total: int, pool: int, weight: int, value: int, quota: int, given: int)
    requires 0 < weightScale && 0 <= value <= total && 0 < total
    requires -weightScale < weightScale * quota - pool * weight < weightScale
    requires -total < total * given - quota * value < total
    ensures -2 * (weightScale * total) < weightScale * total * given - pool * weight * value < 2 * (weightScale * total)
  {
    var e, f := total * given - quota * value, weightScale * quota - pool * weight;
    ErrorSplits(weightScale, total, pool, weight, value, quota, given);
    FirstError(weightScale, total, e);
    SecondError(weightScale, total, value, f);
  }

  /** The whole error is the error of the split, weighed, and the error of the quota, weighed. */
  lemma ErrorSplits(weightScale: int, total: int, pool: int, weight: int, value: int, quota: int, given: int)
    ensures weightScale * total * given - pool * weight * value
      == weightScale * (total * given - quota * value) + value * (weightScale * quota - pool * weight)
  {
    assert weightScale * (total * given - quota * value) == weightScale * total * given - weightScale * quota * value;
    assert value * (weightScale * quota - pool * weight) == weightScale * quota * value - pool * weight * value;
  }

  lemma FirstError(weightScale: int, total: int, e: int)
    requires weightScale > 0 && -total < e < total
    ensures -(weightScale * total) < weightScale * e < weightScale * total
  {
    Scaled(weightScale, e, total - 1);
    Scaled(weightScale, 1 - total, e);
    assert weightScale * (total - 1) == weightScale * total - weightScale;
    assert weightScale * (1 - total) == weightScale - weightScale * total;
  }

  lemma SecondError(weightScale: int, total: int, value: int, f: int)
    requires 0 < weightScale && 0 <= value <= total && -weightScale < f < weightScale
    ensures -(weightScale * total) <= value * f <= weightScale * total
  {
    Scaled(value, f, weightScale);
    Scaled(value, -weightScale, f);
    Scaled(weightScale, value, total);
    assert value * -weightScale == -(weightScale * value) && value * weightScale == weightScale * value;
  }

  lemma QuotaError(pool: nat, vs: seq<ValidatedSource>, i: nat)
    requires Ready(vs) && i < |vs|
    ensures 0 - WEIGHT_SCALE < WEIGHT_SCALE * Quota(pool, vs, i) - pool * vs[i].weight < WEIGHT_SCALE
    ensures pool * vs[i].weight % WEIGHT_SCALE == 0 ==> WEIGHT_SCALE * Quota(pool, vs, i) == pool * vs[i].weight
  {
    ApportionedIsLargestRemainder(pool, WEIGHT_SCALE, WeightItems(vs));
    QuotaRule(pool, WEIGHT_SCALE, WeightItems(vs), Quotas(pool, vs), i);
  }

  lemma GivenError(pool: nat, vs: seq<ValidatedSource>, i: nat, account: nat)
    requires Ready(vs) && i < |vs| && Holds(vs[i], account)
    ensures var unit := WEIGHT_SCALE * vs[i].totalValue;
      -2 * unit < unit * Given(pool, vs, i, account) - pool * vs[i].weight * ValueOf(vs[i], account) < 2 * unit
  {
    var v, quota := vs[i], Quota(pool, vs, i);
    var j := GivenMeaning(pool, vs, i, account);
    QuotaError(pool, vs, i);
    ApportionedIsLargestRemainder(quota, v.totalValue, v.entries);
    QuotaRule(quota, v.totalValue, v.entries, Split(quota, v), j);
    ValueWithinSum(v.entries, j);
    TwoStageStep(WEIGHT_SCALE, v.totalValue, pool, v.weight, v.entries[j].value, quota, Given(pool, vs, i, account));
  }

  // ---- the error bound ---------------------------------------------------

  /** The exact rational part of the pool that source `v` owes `account`. */
  ghost function IdealPart(pool: nat, v: ValidatedSource, account: nat): real
    requires ReadySource(v)
  {
    (pool * v.weight * ValueOf(v, account)) as real / (WEIGHT_SCALE * v.totalValue) as real
  }

  ghost function Ideal(pool: nat, vs: seq<ValidatedSource>, n: nat, account: nat): real
    requires Ready(vs) && n <= |vs|
  {
    if n == 0 then 0.0 else Ideal(pool, vs, n - 1, account) + IdealPart(pool, vs[n - 1], account)
  }

  ghost function Holders(vs: seq<ValidatedSource>, n: nat, account: nat): nat
    requires n <= |vs|
  {
    if n == 0 then 0 else Holders(vs, n - 1, account) + (if Holds(vs[n - 1], account) then 1 else 0)
  }

  lemma RealPositiveFactor(u: real, d: real)
    requires u > 0.0 && u * d > 0.0
    ensures d > 0.0
  {
  }

  /** An integer whose multiple is near a target is near the rational quotient. */
  lemma NearQuotient(unit: int, x: int, target: int, m: int)
    requires unit > 0 && -(m * unit) < unit * x - target < m * unit
    ensures -(m as real) < x as real - target as real / unit as real < m as real
  {
    var u, t, y, w := unit as real, target as real, x as real, m as real;
    var e := y - t / u;
    assert u * e == (unit * x - target) as real by { assert u * (t / u) == t && u * y == (unit * x) as real; }
    assert w * u == (m * unit) as real;
    assert u * (w - e) == w * u - u * e && u * (e + w) == u * e + w * u;
    RealPositiveFactor(u, w - e);
    RealPositiveFactor(u, e + w);
  }

  lemma GivenNearIdeal(pool: nat, vs: seq<ValidatedSource>, i: nat, account: nat)
    requires Ready(vs) && i < |vs|
    ensures Holds(vs[i], account) ==> -2.0 < Given(pool, vs, i, account) as real - IdealPart(pool, vs[i], account) < 2.0
    ensures !Holds(vs[i], account) ==> Given(pool, vs, i, account) as real == IdealPart(pool, vs[i], account) == 0.0
  {
    if Holds(vs[i], account) {
      GivenError(pool, vs, i, account);
      NearQuotient(WEIGHT_SCALE * vs[i].totalValue, Given(pool, vs, i, account),
        pool * vs[i].weight * ValueOf(vs[i], account), 2);
    } else {
      var j := GivenMeaning(pool, vs, i, account);
      assert pool * vs[i].weight * ValueOf(vs[i], account) == 0;
    }
  }

  /** An error of less than two points for each of `k` contributions. */
  ghost predicate Within(k: nat, error: real) {
    (k == 0 ==> error == 0.0) && (k > 0 ==> -2.0 * k as real < error < 2.0 * k as real)
  }

  lemma WithinStep(k: nat, error: real, step: real)
    requires Within(k, error) && -2.0 < step < 2.0
    ensures Within(k + 1, error + step)
  {
    assert 2.0 * (k + 1) as real == 2.0 * k as real + 2.0;
  }

  lemma {:induction false} PrefixNearIdeal(pool: nat, vs: seq<ValidatedSource>, n: nat, account: nat)
    requires Ready(vs) && n <= |vs|
    ensures Within(Holders(vs, n, account),
      AmountAt(Postings(pool, vs, n), account) as real - Ideal(pool, vs, n, account))
  {
    if n == 0 {
      assert AmountsAt(Postings(pool, vs, 0), account) == [];
    } else {
      PrefixNearIdeal(pool, vs, n - 1, account);
      AmountAtConcat(Postings(pool, vs, n - 1), SourcePostings(pool, vs, n - 1), account);
      GivenNearIdeal(pool, vs, n - 1, account);
      OneMoreSource(Holders(vs, n - 1, account), Holds(vs[n - 1], account),
        AmountAt(Postings(pool, vs, n - 1), account), Ideal(pool, vs, n - 1, account),
        Given(pool, vs, n - 1, account), IdealPart(pool, vs[n - 1], account));
    }
  }

  /** A source that holds the account adds less than two points of error, any other adds none. */
  lemma OneMoreSource(k: nat, holds: bool, before: int, ideal: real, given: int, owed: real)
    requires Within(k, before as real - ideal)
    requires if holds then -2.0 < given as real - owed < 2.0 else given as real == owed
    ensures Within(if holds then k + 1 else k, (before + given) as real - (ideal + owed))
  {
    assert (before + given) as real - (ideal + owed) == (before as real - ideal) + (given as real - owed);
    if holds { WithinStep(k, before as real - ideal, given as real - owed); }
  }

  /** An account that `k > 0` sources hold ends strictly within `2k` points of its exact share;
      an account that none holds gets nothing. */
  lemma TwoStageError(pool: nat, vs: seq<ValidatedSource>, account: nat)
    requires Ready(vs)
    ensures Within(Holders(vs, |vs|, account),
      Get(Combined(pool, vs), account) as real - Ideal(pool, vs, |vs|, account))
    ensures Holders(vs, |vs|, account) == 0 ==> Get(Combined(pool, vs), account) == 0
  {
    PrefixNearIdeal(pool, vs, |vs|, account);
    TallyAt(Postings(pool, vs, |vs|), account);
    if Holders(vs, |vs|, account) == 0 { NoHolderNoIdeal(pool, vs, |vs|, account); }
  }

  lemma {:induction false} NoHolderNoIdeal(pool: nat, vs: seq<ValidatedSource>, n: nat, account: nat)
    requires Ready(vs) && n <= |vs| && Holders(vs, n, account) == 0
    ensures Ideal(pool, vs, n, account) == 0.0
  {
    if n > 0 {
      NoHolderNoIdeal(pool, vs, n - 1, account);
      assert pool * vs[n - 1].weight * ValueOf(vs[n - 1], account) == 0;
    }
  }

  // ---- influence of one source -------------------------------------------

  /** The same policy with other entries in source `i`. */
  ghost predicate DiffersOnlyIn(vs: seq<ValidatedSource>, other: seq<ValidatedSource>, i: nat)
  {
    && |vs| == |other| && i < |vs|
    && vs[i].sourceId == other[i].sourceId && vs[i].weight == other[i].weight
    && forall j :: 0 <= j < |vs| && j != i ==> vs[j] == other[j]
  }

  lemma QuotasIgnoreEntries(pool: nat, vs: seq<ValidatedSource>, other: seq<ValidatedSource>, i: nat)
    requires Ready(vs) && Ready(other) && DiffersOnlyIn(vs, other, i)
    ensures Quotas(pool, vs) == Quotas(pool, other)
    ensures forall j :: 0 <= j < |vs| && j != i ==> SourcePostings(pool, vs, j) == SourcePostings(pool, other, j)
  {
    assert WeightItems(vs) == WeightItems(other);
  }

  function Parts(pool: nat, vs: seq<ValidatedSource>): seq<seq<Posting<nat>>>
    requires Ready(vs)
  {
    seq(|vs|, i requires 0 <= i < |vs| => SourcePostings(pool, vs, i))
  }

  lemma {:induction false} PostingsJoined(pool: nat, vs: seq<ValidatedSource>, n: nat)
    requires Ready(vs) && n <= |vs|
    ensures Postings(pool, vs, n) == Join(Parts(pool, vs)[..n])
  {
    if n > 0 {
      PostingsJoined(pool, vs, n - 1);
      TakeOneMore(Parts(pool, vs), n - 1);
      JoinSnoc(Parts(pool, vs)[..n - 1], Parts(pool, vs)[n - 1]);
    }
  }

  lemma CombinedAround(pool: nat, vs: seq<ValidatedSource>, i: nat)
    requires Ready(vs) && i < |vs|
    ensures var parts := Parts(pool, vs);
      Combined(pool, vs) == Tally(Join(parts[..i]) + parts[i] + Join(parts[i + 1..]))
  {
    PostingsJoined(pool, vs, |vs|);
    assert Parts(pool, vs)[..|vs|] == Parts(pool, vs);
    JoinAround(Parts(pool, vs), i);
  }

  lemma PartsAgree(pool: nat, vs: seq<ValidatedSource>, other: seq<ValidatedSource>, i: nat)
    requires Ready(vs) && Ready(other) && DiffersOnlyIn(vs, other, i)
    ensures Parts(pool, vs)[..i] == Parts(pool, other)[..i]
    ensures Parts(pool, vs)[i + 1..] == Parts(pool, other)[i + 1..]
    ensures Quota(pool, vs, i) == Quota(pool, other, i)
  {
    QuotasIgnoreEntries(pool, vs, other, i);
  }

  /** Replacing everything one source says moves the output, in L1, by at most twice its quota. */
  lemma InfluenceCap(pool: nat, vs: seq<ValidatedSource>, other: seq<ValidatedSource>, i: nat)
    requires Ready(vs) && Ready(other) && DiffersOnlyIn(vs, other, i)
    ensures L1(Combined(pool, vs), Combined(pool, other)) <= 2 * Quota(pool, vs, i)
  {
    var parts, others := Parts(pool, vs), Parts(pool, other);
    CombinedAround(pool, vs, i);
    CombinedAround(pool, other, i);
    PartsAgree(pool, vs, other, i);
    PositivePostings(Split(Quota(pool, vs, i), vs[i]));
    PositivePostings(Split(Quota(pool, other, i), other[i]));
    SourceConserves(pool, vs, i);
    SourceConserves(pool, other, i);
    ReplacedPostings(Join(parts[..i]), parts[i], others[i], Join(parts[i + 1..]));
  }

  /** A quota is at most the ceiling of the configured part of the pool. */
  lemma QuotaCap(pool: nat, vs: seq<ValidatedSource>, i: nat)
    requires Ready(vs) && i < |vs|
    ensures Quota(pool, vs, i) <= (pool * vs[i].weight + WEIGHT_SCALE - 1) / WEIGHT_SCALE
  {
    QuotaError(pool, vs, i);
    var q, x := Quota(pool, vs, i), pool * vs[i].weight;
    var ceiling := (x + WEIGHT_SCALE - 1) / WEIGHT_SCALE;
    assert WEIGHT_SCALE * q < WEIGHT_SCALE * (ceiling + 1);
  }

  // ---- the published output ----------------------------------------------

  function ScoreValues(scores: seq<AllocationEntry>): seq<int> {
    seq(|scores|, i requires 0 <= i < |scores| => scores[i].value)
  }

  /** A score list in strictly ascending account order that holds exactly the balances. */
  ghost predicate ListsBalances(scores: seq<AllocationEntry>, balances: map<nat, int>) {
    && (forall i, j :: 0 <= i < j < |scores| ==> scores[i].account < scores[j].account)
    && (forall i :: 0 <= i < |scores| ==>
      scores[i].account in balances && balances[scores[i].account] == scores[i].value)
    && |scores| == |balances.Keys|
  }

  lemma ScoresListBalances(balances: map<nat, int>)
    requires forall k :: k in balances ==> balances[k] >= 0
    ensures ListsBalances(Scores(balances), balances)
  {
  }

  lemma ScoresTotal(balances: map<nat, int>)
    requires forall k :: k in balances ==> balances[k] >= 0
    ensures Sum(ScoreValues(Scores(balances))) == Total(balances)
  {
    var accounts := AscendingNats(balances.Keys);
    TotalAscending(balances, accounts);
    assert ScoreValues(Scores(balances)) == Along(balances, accounts);
  }

  /** The output lists the positive balances in account order and adds up to the pool. */
  lemma OutputIsCanonical(pool: nat, vs: seq<ValidatedSource>)
    requires Ready(vs)
    ensures ListsBalances(BlendResult(pool, vs).scores, Combined(pool, vs))
    ensures forall k :: k in Combined(pool, vs) ==> 0 < Combined(pool, vs)[k] <= pool
    ensures Sum(ScoreValues(BlendResult(pool, vs).scores)) == pool
  {
    CombinedBounds(pool, vs, |vs|);
    BlendConserves(pool, vs);
    ScoresListBalances(Combined(pool, vs));
    ScoresTotal(Combined(pool, vs));
  }

  predicate SourceOrder(a: ValidatedSource, b: ValidatedSource) { a.sourceId <= b.sourceId }

  /** The TypeScript form: sort the sources by id, then check and blend; `None` when it refuses. */
  ghost function Compose(pool: nat, sources: seq<ValidatedSource>): Option<Composed>
  {
    var vs := SortBy(SourceOrder, sources);
    if Ready(vs) && PositiveQuotas(Quotas(pool, vs), |vs|) then Some(BlendResult(pool, vs)) else None
  }

  lemma IdsTellApart(vs: seq<ValidatedSource>, x: ValidatedSource, y: ValidatedSource)
    requires AscendingKeys(WeightItems(vs)) && x in vs && y in vs && x.sourceId == y.sourceId
    ensures x == y
  {
    var i :| 0 <= i < |vs| && vs[i] == x;
    var j :| 0 <= j < |vs| && vs[j] == y;
    assert WeightItems(vs)[i].key == WeightItems(vs)[j].key;
  }

  /** Sources that pass the checks in id order have distinct ids, so every enumeration sorts alike. */
  lemma ReadySortsAlike(vs: seq<ValidatedSource>, other: seq<ValidatedSource>)
    requires multiset(vs) == multiset(other) && Ready(SortBy(SourceOrder, vs))
    ensures SortBy(SourceOrder, other) == SortBy(SourceOrder, vs)
  {
    var a := SortBy(SourceOrder, vs);
    SortElements(SourceOrder, vs);
    SortElements(SourceOrder, other);
    SortSorted(SourceOrder, vs);
    SortSorted(SourceOrder, other);
    forall x, y | x in a && y in a && SourceOrder(x, y) && SourceOrder(y, x) ensures x == y {
      IdsTellApart(a, x, y);
    }
    SortedUnique(SourceOrder, a, SortBy(SourceOrder, other));
  }

  /** The order of the sources in a policy changes neither the composed result nor whether there is one. */
  lemma SourceOrderIrrelevant(pool: nat, vs: seq<ValidatedSource>, other: seq<ValidatedSource>)
    requires multiset(vs) == multiset(other)
    ensures Compose(pool, vs) == Compose(pool, other)
  {
    if Ready(SortBy(SourceOrder, vs)) {
      ReadySortsAlike(vs, other);
    } else if Ready(SortBy(SourceOrder, other)) {
      ReadySortsAlike(other, vs);
    }
  }
}
