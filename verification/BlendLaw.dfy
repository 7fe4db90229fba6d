/** The two-stage blend said without an algorithm, and that nothing else satisfies it:
    crates/composition-core/src/compute.rs:197-240. */
module BlendLaw {
  import opened Totals
  import opened Ordering
  import opened Hamilton
  import opened Composition
  import opened CompositionBounds
  import opened Division
  import P = Propagation

  // ---- the law ------------------------------------------------------------------------

  /** The list holds exactly the positive amounts, in strictly ascending account order. */
  ghost predicate Lists(entries: seq<AllocationEntry>, amount: nat -> int) {
    && (forall i, j :: 0 <= i < j < |entries| ==> entries[i].account < entries[j].account)
    && (forall i :: 0 <= i < |entries| ==>
          0 < entries[i].value == amount(entries[i].account))
    && forall a: nat :: amount(a) > 0 ==> AllocationEntry(a, amount(a)) in entries
  }

  /** What one part gives an account. */
  function AmountIn(part: map<nat, int>): nat -> int { (a: nat) => Get(part, a) }

  function GivenBy(parts: seq<map<nat, int>>, a: nat): seq<int>
  {
    seq(|parts|, i requires 0 <= i < |parts| => Get(parts[i], a))
  }

  /** What all parts give an account together. */
  function AmountInAll(parts: seq<map<nat, int>>): nat -> int { (a: nat) => Sum(GivenBy(parts, a)) }

  /** One source: its quota, divided by the values of its entries, and listed. */
  ghost predicate SourceDivided(v: ValidatedSource, quotas: map<nat, int>, part: map<nat, int>, s: SourceAllocation)
    requires DistinctKeys(v.entries)
  {
    && v.sourceId in quotas && s.sourceId == v.sourceId && s.quota == quotas[v.sourceId]
    && Divides(quotas[v.sourceId], WeightsOf(v.entries), part) && Lists(s.allocations, AmountIn(part))
  }

  /** The pool is divided by the weights of the sources, each quota by the values of its entries, and the output
      lists what the accounts are given together. */
  ghost predicate BlendedBy(pool: nat, vs: seq<ValidatedSource>, r: Composed, quotas: map<nat, int>,
                            parts: seq<map<nat, int>>)
    requires Ready(vs)
  {
    && Divides(pool, WeightsOf(WeightItems(vs)), quotas)
    && |parts| == |vs| == |r.sourceAllocations|
    && (forall i :: 0 <= i < |vs| ==> SourceDivided(vs[i], quotas, parts[i], r.sourceAllocations[i]))
    && Lists(r.scores, AmountInAll(parts)) && r.totalValue == pool
  }

  ghost predicate Blended(pool: nat, vs: seq<ValidatedSource>, r: Composed)
    requires Ready(vs)
  {
    exists quotas, parts :: BlendedBy(pool, vs, r, quotas, parts)
  }

  // ---- the blend keeps the law ------------------------------------------------------------

  ghost function QuotaMap(pool: nat, vs: seq<ValidatedSource>): map<nat, int> { P.Shared(pool, WeightItems(vs)) }

  ghost function PartOf(pool: nat, vs: seq<ValidatedSource>, i: nat): map<nat, int>
    requires Ready(vs) && i < |vs|
  {
    P.Shared(Quota(pool, vs, i), vs[i].entries)
  }

  ghost function PartsOf(pool: nat, vs: seq<ValidatedSource>): seq<map<nat, int>>
    requires Ready(vs)
  {
    seq(|vs|, i requires 0 <= i < |vs| => PartOf(pool, vs, i))
  }

  /** In a list of distinct keys the map-valued apportionment holds each item's allocation. */
  lemma SharedIsAllocation(pool: nat, items: seq<Item>, whole: nat, j: nat)
    requires DistinctKeys(items) && Weighted(whole, items) && j < |items|
    ensures Get(P.Shared(pool, items), items[j].key) == Apportioned(pool, whole, items)[j].allocation
    ensures items[j].key in P.Shared(pool, items)
  {
    P.SharedFacts(pool, items);
    var h := SharedAt(pool, items, items[j].key);
    assert h == j;
  }

  lemma QuotaOfId(pool: nat, vs: seq<ValidatedSource>, i: nat)
    requires Ready(vs) && i < |vs|
    ensures vs[i].sourceId in QuotaMap(pool, vs) && QuotaMap(pool, vs)[vs[i].sourceId] == Quota(pool, vs, i)
  {
    SharedIsAllocation(pool, WeightItems(vs), WEIGHT_SCALE, i);
  }

  lemma AbsentFromShared(pool: nat, items: seq<Item>, a: nat)
    requires DistinctKeys(items) && Sum(Values(items)) > 0
    requires forall j :: 0 <= j < |items| ==> items[j].key != a
    ensures Get(P.Shared(pool, items), a) == 0
  {
    P.SharedFacts(pool, items);
  }

  lemma GivenIsPart(pool: nat, vs: seq<ValidatedSource>, i: nat, a: nat)
    requires Ready(vs) && i < |vs|
    ensures Given(pool, vs, i, a) == Get(PartOf(pool, vs, i), a)
  {
    var v := vs[i];
    var j := GivenMeaning(pool, vs, i, a);
    if Holds(v, a) {
      SharedIsAllocation(Quota(pool, vs, i), v.entries, v.totalValue, j);
    } else {
      AbsentFromShared(Quota(pool, vs, i), v.entries, a);
    }
  }

  lemma GivenBySnoc(parts: seq<map<nat, int>>, n: nat, a: nat)
    requires 0 < n <= |parts|
    ensures Sum(GivenBy(parts[..n], a)) == Sum(GivenBy(parts[..n - 1], a)) + Get(parts[n - 1], a)
  {
    assert GivenBy(parts[..n], a)[..n - 1] == GivenBy(parts[..n - 1], a);
  }

  lemma {:induction false} PostingsGive(pool: nat, vs: seq<ValidatedSource>, parts: seq<map<nat, int>>, n: nat, a: nat)
    requires Ready(vs) && n <= |vs| && parts == PartsOf(pool, vs)
    ensures AmountAt(Postings(pool, vs, n), a) == Sum(GivenBy(parts[..n], a))
  {
    if n == 0 {
      assert AmountsAt(Postings(pool, vs, 0), a) == [];
    } else {
      PostingsGive(pool, vs, parts, n - 1, a);
      AmountAtConcat(Postings(pool, vs, n - 1), SourcePostings(pool, vs, n - 1), a);
      GivenIsPart(pool, vs, n - 1, a);
      GivenBySnoc(parts, n, a);
    }
  }

  lemma BalanceIsGiven(pool: nat, vs: seq<ValidatedSource>, a: nat)
    requires Ready(vs)
    ensures Get(Combined(pool, vs), a) == AmountInAll(PartsOf(pool, vs))(a)
  {
    TallyAt(Postings(pool, vs, |vs|), a);
    PostingsGive(pool, vs, PartsOf(pool, vs), |vs|, a);
    assert PartsOf(pool, vs)[..|vs|] == PartsOf(pool, vs);
  }

  /** Posting `p` is a positive share. */
  ghost predicate FromShare(shares: seq<Share>, p: Posting<nat>) {
    exists k :: 0 <= k < |shares| && shares[k].key == p.key && shares[k].allocation == p.amount > 0
  }

  ghost predicate AscendingPostings(ps: seq<Posting<nat>>) {
    forall i, j :: 0 <= i < j < |ps| ==> ps[i].key < ps[j].key
  }

  lemma {:induction false} PositiveFrom(shares: seq<Share>)
    ensures forall i :: 0 <= i < |Positive(shares)| ==> FromShare(shares, Positive(shares)[i])
  {
    if shares != [] {
      var n := |shares| - 1;
      var front := Positive(shares[..n]);
      PositiveFrom(shares[..n]);
      forall i | 0 <= i < |front| ensures FromShare(shares, front[i]) {
        var k :| 0 <= k < n && shares[..n][k].key == front[i].key && shares[..n][k].allocation == front[i].amount > 0;
        assert shares[k].key == front[i].key;
      }
      if shares[n].allocation > 0 { assert FromShare(shares, Posting(shares[n].key, shares[n].allocation)); }
    }
  }

  /** The positive shares, in the order of the shares. */
  lemma {:induction false} PositiveAscends(shares: seq<Share>)
    requires forall a, b :: 0 <= a < b < |shares| ==> shares[a].key < shares[b].key
    ensures AscendingPostings(Positive(shares))
  {
    if shares != [] {
      var n := |shares| - 1;
      PositiveAscends(shares[..n]);
      PositiveFrom(shares[..n]);
      forall i | 0 <= i < |Positive(shares[..n])| ensures Positive(shares[..n])[i].key < shares[n].key {
        assert FromShare(shares[..n], Positive(shares[..n])[i]);
      }
    }
  }

  lemma {:induction false} PositiveKept(shares: seq<Share>, k: nat)
    requires k < |shares| && shares[k].allocation > 0
    ensures Posting(shares[k].key, shares[k].allocation) in Positive(shares)
  {
    var n := |shares| - 1;
    if k < n { PositiveKept(shares[..n], k); }
  }

  lemma ListedAmount(pool: nat, vs: seq<ValidatedSource>, i: nat, k: nat)
    requires Ready(vs) && i < |vs| && k < |vs[i].entries|
    ensures Split(Quota(pool, vs, i), vs[i])[k].key == vs[i].entries[k].key
    ensures Split(Quota(pool, vs, i), vs[i])[k].allocation == Get(PartOf(pool, vs, i), vs[i].entries[k].key)
  {
    ApportionedIsLargestRemainder(Quota(pool, vs, i), vs[i].totalValue, vs[i].entries);
    assert SameItem(Split(Quota(pool, vs, i), vs[i])[k], vs[i].entries[k]);
    SharedIsAllocation(Quota(pool, vs, i), vs[i].entries, vs[i].totalValue, k);
  }

  lemma SplitAscends(pool: nat, vs: seq<ValidatedSource>, i: nat)
    requires Ready(vs) && i < |vs|
    ensures var shares := Split(Quota(pool, vs, i), vs[i]);
      forall a, b :: 0 <= a < b < |shares| ==> shares[a].key < shares[b].key
  {
    var shares := Split(Quota(pool, vs, i), vs[i]);
    forall k | 0 <= k < |shares| ensures shares[k].key == vs[i].entries[k].key { ListedAmount(pool, vs, i, k); }
  }

  /** What a source posts lists its part. */
  ghost predicate PostsPart(ps: seq<Posting<nat>>, amount: nat -> int) {
    && AscendingPostings(ps)
    && (forall i :: 0 <= i < |ps| ==> 0 < ps[i].amount == amount(ps[i].key))
    && forall a: nat :: amount(a) > 0 ==> Posting(a, amount(a)) in ps
  }

  lemma PostingIsPart(pool: nat, vs: seq<ValidatedSource>, i: nat, k: nat)
    requires Ready(vs) && i < |vs| && k < |SourcePostings(pool, vs, i)|
    ensures var p := SourcePostings(pool, vs, i)[k]; 0 < p.amount == Get(PartOf(pool, vs, i), p.key)
  {
    var shares := Split(Quota(pool, vs, i), vs[i]);
    PositiveFrom(shares);
    var p := SourcePostings(pool, vs, i)[k];
    assert FromShare(shares, p);
    var j :| 0 <= j < |shares| && shares[j].key == p.key && shares[j].allocation == p.amount > 0;
    ListedAmount(pool, vs, i, j);
  }

  lemma PartIsPosted(pool: nat, vs: seq<ValidatedSource>, i: nat, a: nat)
    requires Ready(vs) && i < |vs| && Get(PartOf(pool, vs, i), a) > 0
    ensures Posting(a, Get(PartOf(pool, vs, i), a)) in SourcePostings(pool, vs, i)
  {
    var v := vs[i];
    P.SharedFacts(Quota(pool, vs, i), v.entries);
    var k :| 0 <= k < |v.entries| && v.entries[k].key == a;
    ListedAmount(pool, vs, i, k);
    PositiveKept(Split(Quota(pool, vs, i), v), k);
  }

  lemma PostsPartWhen(ps: seq<Posting<nat>>, part: map<nat, int>)
    requires AscendingPostings(ps)
    requires forall k :: 0 <= k < |ps| ==> 0 < ps[k].amount == Get(part, ps[k].key)
    requires forall a: nat :: Get(part, a) > 0 ==> Posting(a, Get(part, a)) in ps
    ensures PostsPart(ps, AmountIn(part))
  {
  }

  lemma SourcePostsPart(pool: nat, vs: seq<ValidatedSource>, i: nat)
    requires Ready(vs) && i < |vs|
    ensures PostsPart(SourcePostings(pool, vs, i), AmountIn(PartOf(pool, vs, i)))
  {
    var ps, part := SourcePostings(pool, vs, i), PartOf(pool, vs, i);
    SplitAscends(pool, vs, i);
    PositiveAscends(Split(Quota(pool, vs, i), vs[i]));
    forall k | 0 <= k < |ps| ensures 0 < ps[k].amount == Get(part, ps[k].key) { PostingIsPart(pool, vs, i, k); }
    forall a: nat | Get(part, a) > 0 ensures Posting(a, Get(part, a)) in ps { PartIsPosted(pool, vs, i, a); }
    PostsPartWhen(ps, part);
  }

  lemma EntriesList(ps: seq<Posting<nat>>, amount: nat -> int)
    requires PostsPart(ps, amount) && forall i :: 0 <= i < |ps| ==> ps[i].amount >= 0
    ensures Lists(Entries(ps), amount)
  {
    var entries := Entries(ps);
    forall a: nat | amount(a) > 0 ensures AllocationEntry(a, amount(a)) in entries {
      var i :| 0 <= i < |ps| && ps[i] == Posting(a, amount(a));
      assert entries[i] == AllocationEntry(a, amount(a));
    }
  }

  lemma SourceKeepsLaw(pool: nat, vs: seq<ValidatedSource>, i: nat)
    requires Ready(vs) && i < |vs|
    ensures SourceDivided(vs[i], QuotaMap(pool, vs), PartOf(pool, vs, i), SourceResult(pool, vs, i))
  {
    QuotaOfId(pool, vs, i);
    SharedDivides(Quota(pool, vs, i), vs[i].entries);
    SourcePostsPart(pool, vs, i);
    PositivePostings(Split(Quota(pool, vs, i), vs[i]));
    EntriesList(SourcePostings(pool, vs, i), AmountIn(PartOf(pool, vs, i)));
  }

  lemma ScoreListed(balances: map<nat, int>, a: nat)
    requires (forall k :: k in balances ==> balances[k] > 0) && Get(balances, a) > 0
    ensures AllocationEntry(a, Get(balances, a)) in Scores(balances)
  {
    var i := KeyIndex(balances.Keys, a);
    assert Scores(balances)[i] == AllocationEntry(a, balances[a]);
  }

  lemma ScoresList(balances: map<nat, int>, amount: nat -> int)
    requires forall a: nat :: Get(balances, a) == amount(a)
    requires forall a :: a in balances ==> balances[a] > 0
    ensures Lists(Scores(balances), amount)
  {
    forall a: nat | amount(a) > 0 ensures AllocationEntry(a, amount(a)) in Scores(balances) {
      assert Get(balances, a) == amount(a);
      ScoreListed(balances, a);
    }
  }

  /** The blend keeps the law. */
  lemma BlendKeepsLaw(pool: nat, vs: seq<ValidatedSource>)
    requires Ready(vs)
    ensures Blended(pool, vs, BlendResult(pool, vs))
  {
    var r, quotas, parts := BlendResult(pool, vs), QuotaMap(pool, vs), PartsOf(pool, vs);
    SharedDivides(pool, WeightItems(vs));
    forall i | 0 <= i < |vs| ensures SourceDivided(vs[i], quotas, parts[i], r.sourceAllocations[i]) {
      SourceKeepsLaw(pool, vs, i);
    }
    OutputKeepsLaw(pool, vs);
    assert BlendedBy(pool, vs, r, quotas, parts);
  }

  lemma OutputKeepsLaw(pool: nat, vs: seq<ValidatedSource>)
    requires Ready(vs)
    ensures Lists(BlendResult(pool, vs).scores, AmountInAll(PartsOf(pool, vs)))
  {
    CombinedBounds(pool, vs, |vs|);
    forall a: nat ensures Get(Combined(pool, vs), a) == AmountInAll(PartsOf(pool, vs))(a) {
      BalanceIsGiven(pool, vs, a);
    }
    ScoresList(Combined(pool, vs), AmountInAll(PartsOf(pool, vs)));
  }

  // ---- nothing else does -------------------------------------------------------------------

  lemma ListsMember(x: seq<AllocationEntry>, y: seq<AllocationEntry>, amount: nat -> int, i: nat)
    requires Lists(x, amount) && Lists(y, amount) && i < |x|
    ensures x[i] in y
  {
    assert AllocationEntry(x[i].account, amount(x[i].account)) == x[i];
  }

  predicate AccountLe(a: AllocationEntry, b: AllocationEntry) { a.account <= b.account }

  lemma ListsAreSorted(x: seq<AllocationEntry>, amount: nat -> int)
    requires Lists(x, amount)
    ensures Sorted(AccountLe, x) && Distinct(x)
  {
  }

  lemma ListsUnique(x: seq<AllocationEntry>, y: seq<AllocationEntry>, amount: nat -> int)
    requires Lists(x, amount) && Lists(y, amount)
    ensures x == y
  {
    ListsAreSorted(x, amount);
    ListsAreSorted(y, amount);
    forall e ensures e in x <==> e in y {
      if e in x {
        var i :| 0 <= i < |x| && x[i] == e;
        ListsMember(x, y, amount, i);
      }
      if e in y {
        var i :| 0 <= i < |y| && y[i] == e;
        ListsMember(y, x, amount, i);
      }
    }
    DistinctMembers(x, y);
    forall a, b | a in x && b in x && AccountLe(a, b) && AccountLe(b, a) ensures a == b {
      var i :| 0 <= i < |x| && x[i] == a;
      var j :| 0 <= j < |x| && x[j] == b;
    }
    SortedUnique(AccountLe, x, y);
  }

  lemma SourceUnique(v: ValidatedSource, quotas: map<nat, int>, p: map<nat, int>, s: SourceAllocation,
                     q: map<nat, int>, t: SourceAllocation)
    requires DistinctKeys(v.entries)
    requires SourceDivided(v, quotas, p, s) && SourceDivided(v, quotas, q, t)
    ensures p == q && s == t
  {
    WeightsTotal(v.entries);
    DivisionUnique(quotas[v.sourceId], WeightsOf(v.entries), p, q);
    ListsUnique(s.allocations, t.allocations, AmountIn(p));
  }

  lemma QuotasUnique(pool: nat, vs: seq<ValidatedSource>, x: map<nat, int>, y: map<nat, int>)
    requires Ready(vs) && Divides(pool, WeightsOf(WeightItems(vs)), x) && Divides(pool, WeightsOf(WeightItems(vs)), y)
    ensures x == y
  {
    WeightsTotal(WeightItems(vs));
    DivisionUnique(pool, WeightsOf(WeightItems(vs)), x, y);
  }

  lemma SourcesUnique(vs: seq<ValidatedSource>, quotas: map<nat, int>, p: seq<map<nat, int>>, a: seq<SourceAllocation>,
                      q: seq<map<nat, int>>, b: seq<SourceAllocation>)
    requires forall i :: 0 <= i < |vs| ==> DistinctKeys(vs[i].entries)
    requires |p| == |a| == |q| == |b| == |vs|
    requires forall i :: 0 <= i < |vs| ==> SourceDivided(vs[i], quotas, p[i], a[i])
    requires forall i :: 0 <= i < |vs| ==> SourceDivided(vs[i], quotas, q[i], b[i])
    ensures p == q && a == b
  {
    forall i | 0 <= i < |vs| ensures p[i] == q[i] && a[i] == b[i] {
      SourceUnique(vs[i], quotas, p[i], a[i], q[i], b[i]);
    }
  }

  lemma PartsUnique(pool: nat, vs: seq<ValidatedSource>, a: Composed, x: map<nat, int>, p: seq<map<nat, int>>,
                    b: Composed, y: map<nat, int>, q: seq<map<nat, int>>)
    requires Ready(vs) && BlendedBy(pool, vs, a, x, p) && BlendedBy(pool, vs, b, y, q)
    ensures p == q && a.sourceAllocations == b.sourceAllocations
  {
    QuotasUnique(pool, vs, x, y);
    SourcesUnique(vs, x, p, a.sourceAllocations, q, b.sourceAllocations);
  }

  /** And nothing else does: the law determines the whole result. */
  lemma BlendUnique(pool: nat, vs: seq<ValidatedSource>, a: Composed, b: Composed)
    requires Ready(vs) && Blended(pool, vs, a) && Blended(pool, vs, b)
    ensures a == b
  {
    var x, p :| BlendedBy(pool, vs, a, x, p);
    var y, q :| BlendedBy(pool, vs, b, y, q);
    PartsUnique(pool, vs, a, x, p, b, y, q);
    ListsUnique(a.scores, b.scores, AmountInAll(p));
  }
}
