/** Two-stage composition: crates/composition-core/src/compute.rs. A pool is split across
    weighted sources, each quota across that source's accounts, and the parts are added per account. */
module Composition {
  import opened Totals
  import opened Ordering
  import opened Hamilton

  const WEIGHT_SCALE: nat := 1_000_000_000_000_000_000

  datatype ValidatedSource = ValidatedSource(sourceId: nat, totalValue: nat, weight: nat, entries: seq<Item>)

  datatype AllocationEntry = AllocationEntry(account: nat, value: nat)
  datatype SourceAllocation = SourceAllocation(sourceId: nat, quota: nat, allocations: seq<AllocationEntry>)
  datatype Composed = Composed(sourceAllocations: seq<SourceAllocation>, scores: seq<AllocationEntry>, totalValue: nat)

  datatype BlendError = RequiredSourceReceivedZero(sourceId: nat) | OutputPoolMismatch | HamiltonFailed(error: Error)
  datatype Blended = Blend(composed: Composed) | Rejected(error: BlendError)

  // ---- what validation hands over ----------------------------------------

  ghost predicate AscendingKeys(items: seq<Item>) {
    forall i, j :: 0 <= i < j < |items| ==> items[i].key < items[j].key
  }

  /** A source as `validate_source_blob` returns it: canonical entries that add up to the total. */
  ghost predicate ReadySource(v: ValidatedSource) {
    && AscendingKeys(v.entries) && PositiveValues(v.entries)
    && 0 < v.totalValue == Sum(Values(v.entries)) <= U128_MAX
    && 0 < v.weight <= WEIGHT_SCALE
  }

  function WeightItems(vs: seq<ValidatedSource>): seq<Item> {
    seq(|vs|, i requires 0 <= i < |vs| => Item(vs[i].sourceId, vs[i].weight))
  }

  /** The sources after every check up to the union bound. */
  ghost predicate Ready(vs: seq<ValidatedSource>) {
    && AscendingKeys(WeightItems(vs))
    && Sum(Values(WeightItems(vs))) == WEIGHT_SCALE
    && forall i :: 0 <= i < |vs| ==> ReadySource(vs[i])
  }

  // ---- the blend on values -----------------------------------------------

  function Quotas(pool: nat, vs: seq<ValidatedSource>): (r: seq<Share>)
    requires Ready(vs)
    ensures |r| == |vs|
  {
    Apportioned(pool, WEIGHT_SCALE, WeightItems(vs))
  }

  function Quota(pool: nat, vs: seq<ValidatedSource>, i: nat): nat
    requires Ready(vs) && i < |vs|
  {
    Quotas(pool, vs)[i].allocation
  }

  /** How a source splits a quota among its entries, in entry order. */
  function Split(quota: nat, v: ValidatedSource): (r: seq<Share>)
    requires ReadySource(v)
    ensures |r| == |v.entries|
  {
    Apportioned(quota, v.totalValue, v.entries)
  }

  /** The entries with a positive allocation. */
  function Positive(shares: seq<Share>): seq<Posting<nat>>
  {
    if shares == [] then [] else
      var last := shares[|shares| - 1];
      Positive(shares[..|shares| - 1]) + (if last.allocation > 0 then [Posting(last.key, last.allocation)] else [])
  }

  function SourcePostings(pool: nat, vs: seq<ValidatedSource>, i: nat): seq<Posting<nat>>
    requires Ready(vs) && i < |vs|
  {
    Positive(Split(Quota(pool, vs, i), vs[i]))
  }

  /** Everything posted by the first `n` sources. */
  function Postings(pool: nat, vs: seq<ValidatedSource>, n: nat): seq<Posting<nat>>
    requires Ready(vs) && n <= |vs|
  {
    if n == 0 then [] else Postings(pool, vs, n - 1) + SourcePostings(pool, vs, n - 1)
  }

  function Combined(pool: nat, vs: seq<ValidatedSource>): map<nat, int>
    requires Ready(vs)
  {
    Tally(Postings(pool, vs, |vs|))
  }

  function Entries(postings: seq<Posting<nat>>): seq<AllocationEntry>
    requires forall i :: 0 <= i < |postings| ==> postings[i].amount >= 0
  {
    seq(|postings|, i requires 0 <= i < |postings| => AllocationEntry(postings[i].key, postings[i].amount))
  }

  lemma {:induction false} PositivePostings(shares: seq<Share>)
    ensures forall i :: 0 <= i < |Positive(shares)| ==> Positive(shares)[i].amount > 0
    ensures Posted(Positive(shares)) == Sum(Allocations(shares))
  {
    if shares != [] {
      var n := |shares| - 1;
      PositivePostings(shares[..n]);
      assert Allocations(shares)[..n] == Allocations(shares[..n]);
      var front := Positive(shares[..n]);
      if shares[n].allocation > 0 {
        var p := Posting(shares[n].key, shares[n].allocation);
        PostedConcat(front, [p]);
        PostedSingle(p);
      } else {
        assert Positive(shares) == front;
      }
    }
  }

  lemma {:induction false} PostingsPositive(pool: nat, vs: seq<ValidatedSource>, n: nat)
    requires Ready(vs) && n <= |vs|
    ensures forall i :: 0 <= i < |Postings(pool, vs, n)| ==> Postings(pool, vs, n)[i].amount > 0
  {
    if n > 0 {
      PostingsPositive(pool, vs, n - 1);
      PositivePostings(Split(Quota(pool, vs, n - 1), vs[n - 1]));
    }
  }

  // ---- conservation ------------------------------------------------------

  /** Every source hands out exactly its quota. */
  lemma SourceConserves(pool: nat, vs: seq<ValidatedSource>, i: nat)
    requires Ready(vs) && i < |vs|
    ensures Posted(SourcePostings(pool, vs, i)) == Quota(pool, vs, i)
  {
    PositivePostings(Split(Quota(pool, vs, i), vs[i]));
    ApportionedSum(Quota(pool, vs, i), vs[i].totalValue, vs[i].entries);
  }

  lemma {:induction false} PostingsTotal(pool: nat, vs: seq<ValidatedSource>, n: nat)
    requires Ready(vs) && n <= |vs|
    ensures Posted(Postings(pool, vs, n)) == Sum(Allocations(Quotas(pool, vs))[..n])
  {
    if n > 0 {
      PostingsTotal(pool, vs, n - 1);
      SourceConserves(pool, vs, n - 1);
      PostedConcat(Postings(pool, vs, n - 1), SourcePostings(pool, vs, n - 1));
      SumPrefix(Allocations(Quotas(pool, vs)), n);
    }
  }

  /** The quotas use up the pool, and so does the combined output. */
  lemma BlendConserves(pool: nat, vs: seq<ValidatedSource>)
    requires Ready(vs)
    ensures Sum(Allocations(Quotas(pool, vs))) == pool
    ensures Total(Combined(pool, vs)) == pool
  {
    ApportionedSum(pool, WEIGHT_SCALE, WeightItems(vs));
    PostingsTotal(pool, vs, |vs|);
    assert Allocations(Quotas(pool, vs))[..|vs|] == Allocations(Quotas(pool, vs));
    TallyTotal(Postings(pool, vs, |vs|));
  }

  /** Every balance is positive and at most the pool. */
  lemma CombinedBounds(pool: nat, vs: seq<ValidatedSource>, n: nat)
    requires Ready(vs) && n <= |vs|
    ensures forall k :: k in Tally(Postings(pool, vs, n)) ==> 0 < Tally(Postings(pool, vs, n))[k] <= pool
  {
    var ps := Postings(pool, vs, n);
    PostingsPositive(pool, vs, n);
    TallyPositive(ps);
    PostingsTotal(pool, vs, n);
    QuotaPrefix(pool, vs, n);
    TallyTotal(ps);
    forall k | k in Tally(ps) ensures Tally(ps)[k] <= pool {
      TotalAtLeast(Tally(ps), k);
    }
  }

  lemma QuotaPrefix(pool: nat, vs: seq<ValidatedSource>, n: nat)
    requires Ready(vs) && n <= |vs|
    ensures Sum(Allocations(Quotas(pool, vs))[..n]) <= pool
  {
    ApportionedSum(pool, WEIGHT_SCALE, WeightItems(vs));
    PrefixWithin(Allocations(Quotas(pool, vs)), n);
  }

  // ---- the blend as the guest runs it ------------------------------------

  /** The output list: balances in ascending account order. */
  function Scores(balances: map<nat, int>): (r: seq<AllocationEntry>)
    requires forall k :: k in balances ==> balances[k] >= 0
  {
    var accounts := AscendingNats(balances.Keys);
    seq(|accounts|, i requires 0 <= i < |accounts| => AllocationEntry(accounts[i], balances[accounts[i]]))
  }

  function SourceResult(pool: nat, vs: seq<ValidatedSource>, i: nat): SourceAllocation
    requires Ready(vs) && i < |vs|
  {
    PositivePostings(Split(Quota(pool, vs, i), vs[i]));
    SourceAllocation(vs[i].sourceId, Quota(pool, vs, i), Entries(SourcePostings(pool, vs, i)))
  }

  function SourceResults(pool: nat, vs: seq<ValidatedSource>): seq<SourceAllocation>
    requires Ready(vs)
  {
    seq(|vs|, i requires 0 <= i < |vs| => SourceResult(pool, vs, i))
  }

  function BlendResult(pool: nat, vs: seq<ValidatedSource>): Composed
    requires Ready(vs)
  {
    CombinedBounds(pool, vs, |vs|);
    Composed(SourceResults(pool, vs), Scores(Combined(pool, vs)), pool)
  }

  ghost predicate FirstZeroQuota(pool: nat, vs: seq<ValidatedSource>, i: nat)
    requires Ready(vs)
  {
    i < |vs| && Quota(pool, vs, i) == 0 && PositiveQuotas(Quotas(pool, vs), i)
  }

  method FindSource(vs: seq<ValidatedSource>, id: nat) returns (i: nat)
    requires exists j :: 0 <= j < |vs| && vs[j].sourceId == id
    ensures i < |vs| && vs[i].sourceId == id
  {
    i := 0;
    while vs[i].sourceId != id
      invariant i < |vs|
      decreases |vs| - i
      invariant exists j :: i <= j < |vs| && vs[j].sourceId == id
    {
      i := i + 1;
    }
  }

  /** Add one source's allocations to the balances; the checked addition never overflows. */
  method AddAllocations(balances: map<nat, int>, ghost base: seq<Posting<nat>>, ps: seq<Posting<nat>>)
    returns (r: map<nat, int>)
    requires balances == Tally(base) && Posted(base + ps) <= U128_MAX
    requires forall i :: 0 <= i < |base + ps| ==> (base + ps)[i].amount > 0
    ensures r == Tally(base + ps)
  {
    r := balances;
    ghost var all, offset := base + ps, |base|;
    assert all[..offset] == base;
    for n := 0 to |ps|
      invariant r == Tally(all[..offset + n])
    {
      RunningBalance(all, offset + n);
      assert all[offset + n] == ps[n];
      if Get(r, ps[n].key) + ps[n].amount > U128_MAX { assert false; }
      assert all[..offset + n + 1] == all[..offset + n] + [ps[n]];
      TallySnoc(all[..offset + n], ps[n]);
      r := r[ps[n].key := Get(r, ps[n].key) + ps[n].amount];
    }
    assert all[..offset + |ps|] == all;
  }

  /** Fold the balances; the checked addition never overflows. */
  method AddBalances(balances: map<nat, int>) returns (sum: nat)
    requires forall k :: k in balances ==> balances[k] >= 0
    requires Total(balances) <= U128_MAX
    ensures sum == Total(balances)
  {
    var accounts := AscendingNats(balances.Keys);
    TotalAscending(balances, accounts);
    sum := AddAll(Along(balances, accounts));
  }

  method AddAll(values: seq<int>) returns (sum: nat)
    requires forall i :: 0 <= i < |values| ==> values[i] >= 0
    requires Sum(values) <= U128_MAX
    ensures sum == Sum(values)
  {
    sum := 0;
    for i := 0 to |values|
      invariant sum == Sum(values[..i])
    {
      SumPrefix(values, i + 1);
      PrefixWithin(values, i + 1);
      if sum + values[i] > U128_MAX { assert false; }
      sum := sum + values[i];
    }
    assert values[..|values|] == values;
  }

  lemma QuotaWithinPool(pool: nat, vs: seq<ValidatedSource>, i: nat)
    requires Ready(vs) && i < |vs|
    ensures Quota(pool, vs, i) <= pool
    ensures Posted(Postings(pool, vs, i) + SourcePostings(pool, vs, i)) <= pool
  {
    var q := Allocations(Quotas(pool, vs));
    ApportionedSum(pool, WEIGHT_SCALE, WeightItems(vs));
    SumAtLeastTerm(q, i);
    PostingsTotal(pool, vs, i + 1);
    QuotaPrefix(pool, vs, i + 1);
  }

  lemma SourceAdmitted(quota: nat, v: ValidatedSource)
    requires ReadySource(v)
    ensures Admission(v.totalValue, v.entries).Ok?
    ensures Apportionment(quota, v.totalValue, v.entries) == Split(quota, v)
    ensures forall i :: 0 <= i < |v.entries| ==> v.entries[i].value <= U128_MAX
  {
    AdmissionMeaning(v.totalValue, v.entries);
    ApportionInPlace(quota, v.totalValue, v.entries);
    forall i | 0 <= i < |v.entries| ensures v.entries[i].value <= U128_MAX {
      ValueWithinSum(v.entries, i);
    }
  }

  lemma QuotasAdmitted(pool: nat, vs: seq<ValidatedSource>)
    requires Ready(vs)
    ensures Admission(WEIGHT_SCALE, WeightItems(vs)).Ok?
    ensures Apportionment(pool, WEIGHT_SCALE, WeightItems(vs)) == Quotas(pool, vs)
    ensures forall i :: 0 <= i < |vs| ==> Quotas(pool, vs)[i].key == vs[i].sourceId
    ensures forall i :: 0 <= i < |vs| ==> WeightItems(vs)[i].value <= U128_MAX
  {
    AdmissionMeaning(WEIGHT_SCALE, WeightItems(vs));
    ApportionInPlace(pool, WEIGHT_SCALE, WeightItems(vs));
    ApportionedIsLargestRemainder(pool, WEIGHT_SCALE, WeightItems(vs));
    forall i | 0 <= i < |vs| ensures Quotas(pool, vs)[i].key == vs[i].sourceId {
      assert SameItem(Quotas(pool, vs)[i], WeightItems(vs)[i]);
    }
  }

  ghost predicate PositiveQuotas(quotas: seq<Share>, n: nat) {
    n <= |quotas| && forall j :: 0 <= j < n ==> quotas[j].allocation > 0
  }

  /** One turn of the quota loop. */
  method BlendSource(pool: U128, vs: seq<ValidatedSource>, i: nat, quota: Share, combined: map<nat, int>)
    returns (r: map<nat, int>, allocation: SourceAllocation)
    requires Ready(vs) && i < |vs| && quota == Quotas(pool, vs)[i] && quota.key == vs[i].sourceId
    requires combined == Tally(Postings(pool, vs, i))
    ensures r == Tally(Postings(pool, vs, i + 1))
    ensures allocation == SourceResult(pool, vs, i)
  {
    var at := FindSource(vs, quota.key);
    SameSource(vs, at, i);
    var source := vs[at];
    QuotaWithinPool(pool, vs, i);
    SourceAdmitted(quota.allocation, source);
    var shares := Apportion(quota.allocation, source.totalValue, source.entries);
    if shares.Err? { assert false; }
    var allocations := Positive(shares.value);
    PositivePostings(shares.value);
    PostingsPositive(pool, vs, i);
    r := AddAllocations(combined, Postings(pool, vs, i), allocations);
    allocation := SourceAllocation(quota.key, quota.allocation, Entries(allocations));
  }

  /** The conservation check at the end of `compute` always passes. */
  method Finish(pool: U128, vs: seq<ValidatedSource>, sourceAllocations: seq<SourceAllocation>, combined: map<nat, int>)
    returns (r: Composed)
    requires Ready(vs) && combined == Combined(pool, vs) && sourceAllocations == SourceResults(pool, vs)
    ensures r == BlendResult(pool, vs)
  {
    CombinedBounds(pool, vs, |vs|);
    BlendConserves(pool, vs);
    var outputTotal := AddBalances(combined);
    if outputTotal != pool { assert false; }
    r := Composed(sourceAllocations, Scores(combined), outputTotal);
  }

  /** The part of `compute` after validation. Two of its three error returns cannot happen. */
  method BlendSources(pool: U128, vs: seq<ValidatedSource>) returns (r: Blended)
    requires Ready(vs)
    ensures r.Blend? ==> PositiveQuotas(Quotas(pool, vs), |vs|) && r.composed == BlendResult(pool, vs)
    ensures r.Rejected? ==>
      exists i: nat :: FirstZeroQuota(pool, vs, i) && r.error == RequiredSourceReceivedZero(vs[i].sourceId)
  {
    QuotasAdmitted(pool, vs);
    var quotas := Apportion(pool, WEIGHT_SCALE, WeightItems(vs));
    if quotas.Err? { assert false; }
    var shares := quotas.value;
    ghost var results := SourceResults(pool, vs);
    var sourceAllocations: seq<SourceAllocation> := [];
    var combined: map<nat, int> := map[];
    for i := 0 to |vs|
      invariant PositiveQuotas(shares, i)
      invariant combined == Tally(Postings(pool, vs, i))
      invariant sourceAllocations == results[..i]
    {
      if shares[i].allocation == 0 {
        assert FirstZeroQuota(pool, vs, i);
        return Rejected(RequiredSourceReceivedZero(shares[i].key));
      }
      assert PositiveQuotas(shares, i + 1);
      var allocation;
      combined, allocation := BlendSource(pool, vs, i, shares[i], combined);
      TakeOneMore(results, i);
      sourceAllocations := sourceAllocations + [allocation];
    }
    var composed := Finish(pool, vs, sourceAllocations, combined);
    r := Blend(composed);
  }

  lemma SameSource(vs: seq<ValidatedSource>, i: nat, j: nat)
    requires Ready(vs) && i < |vs| && j < |vs| && vs[i].sourceId == vs[j].sourceId
    ensures i == j
  {
    assert WeightItems(vs)[i].key == WeightItems(vs)[j].key;
  }
}
