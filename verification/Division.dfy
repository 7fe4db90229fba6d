/** The division of a pool by weights, said without an algorithm, and the map-valued apportionment that
    computes it: `hamilton` in research/erc8004-reputation/reference.ts. */
module Division {
  import opened Totals
  import opened Ordering
  import opened Hamilton
  import opened Propagation

  // ---- dividing a pool -------------------------------------------------------------

  function Floored(pool: int, weights: map<nat, int>, whole: int, k: nat): int
    requires k in weights && whole > 0
  {
    pool * weights[k] / whole
  }

  function Rest(pool: int, weights: map<nat, int>, whole: int, k: nat): int
    requires k in weights && whole > 0
  {
    pool * weights[k] % whole
  }

  /** `j` has the larger remainder, or the same and the smaller key. */
  predicate Ahead(pool: int, weights: map<nat, int>, whole: int, j: nat, k: nat)
    requires j in weights && k in weights && whole > 0
  {
    Rest(pool, weights, whole, j) > Rest(pool, weights, whole, k)
      || (Rest(pool, weights, whole, j) == Rest(pool, weights, whole, k) && j <= k)
  }

  /** Each part is the floor of its proportion or one more, the parts use up the pool, and whoever gets one
      more stands ahead of everybody who does not. */
  ghost predicate DividedBy(pool: int, weights: map<nat, int>, whole: int, parts: map<nat, int>) {
    && whole > 0 && parts.Keys == weights.Keys && Total(parts) == pool
    && (forall k :: k in weights ==>
          parts[k] == Floored(pool, weights, whole, k) || parts[k] == Floored(pool, weights, whole, k) + 1)
    && (forall j, k :: j in weights && k in weights
          && parts[j] != Floored(pool, weights, whole, j) && parts[k] == Floored(pool, weights, whole, k)
          ==> Ahead(pool, weights, whole, j, k))
  }

  ghost predicate Divides(pool: int, weights: map<nat, int>, parts: map<nat, int>) {
    DividedBy(pool, weights, Total(weights), parts)
  }

  // ---- the algorithm divides -------------------------------------------------------

  /** The weights by account. */
  ghost function WeightsOf(items: seq<Item>): (r: map<nat, int>)
    requires DistinctKeys(items)
    ensures forall k :: k in r <==> exists i :: 0 <= i < |items| && items[i].key == k
    ensures forall i :: 0 <= i < |items| ==> r[items[i].key] == items[i].value
  {
    if items == [] then map[] else
      var n := |items| - 1;
      WeightsOf(items[..n])[items[n].key := items[n].value]
  }

  /** `weights` holds exactly what the items say. */
  ghost predicate Weighs(items: seq<Item>, weights: map<nat, int>) {
    && (forall i :: 0 <= i < |items| ==> items[i].key in weights && weights[items[i].key] == items[i].value)
    && forall k :: k in weights ==> exists i :: 0 <= i < |items| && items[i].key == k
  }

  lemma WeightsAre(items: seq<Item>, weights: map<nat, int>)
    requires DistinctKeys(items) && Weighs(items, weights)
    ensures WeightsOf(items) == weights
  {
    var w := WeightsOf(items);
    forall k | k in weights ensures k in w && w[k] == weights[k] {
      var i :| 0 <= i < |items| && items[i].key == k;
    }
    forall k | k in w ensures k in weights {
      var i :| 0 <= i < |items| && items[i].key == k;
    }
  }

  lemma {:induction false} WeightsTotal(items: seq<Item>)
    requires DistinctKeys(items)
    ensures Total(WeightsOf(items)) == Sum(Values(items)) && NonNegative(WeightsOf(items))
  {
    if items != [] {
      var n := |items| - 1;
      WeightsTotal(items[..n]);
      assert items[n].key !in WeightsOf(items[..n]);
      TotalUpdate(WeightsOf(items[..n]), items[n].key, items[n].value);
      assert Values(items)[..n] == Values(items[..n]);
    }
  }

  /** What the map-valued apportionment holds for one account. */
  lemma SharedAt(pool: nat, items: seq<Item>, k: nat) returns (h: nat)
    requires DistinctKeys(items) && Sum(Values(items)) > 0 && k in Shared(pool, items)
    ensures h < |items| && items[h].key == k
    ensures |Apportioned(pool, Sum(Values(items)), items)| == |items|
    ensures Shared(pool, items)[k] == Apportioned(pool, Sum(Values(items)), items)[h].allocation
  {
    var shares := Apportioned(pool, Sum(Values(items)), items);
    h := MapHolds(shares, k);
    ApportionedIsLargestRemainder(pool, Sum(Values(items)), items);
    assert SameItem(shares[h], items[h]);
  }

  ghost predicate ShareFits(pool: nat, item: Item, whole: nat, s: Share)
    requires whole > 0
  {
    && s.key == item.key && s.remainder == pool * item.value % whole
    && (s.allocation == pool * item.value / whole || s.allocation == pool * item.value / whole + 1)
  }

  lemma ShareAt(pool: nat, items: seq<Item>, whole: nat, h: nat)
    requires Weighted(whole, items) && h < |items|
    ensures |Apportioned(pool, whole, items)| == |items|
    ensures ShareFits(pool, items[h], whole, Apportioned(pool, whole, items)[h])
  {
    ApportionedIsLargestRemainder(pool, whole, items);
    assert SameItem(Apportioned(pool, whole, items)[h], items[h]);
    assert Apportioned(pool, whole, items)[h] in Apportioned(pool, whole, items);
  }

  lemma WinnersRank(pool: nat, items: seq<Item>, whole: nat, g: nat, h: nat)
    requires Weighted(whole, items) && g < |items| && h < |items|
    ensures |Apportioned(pool, whole, items)| == |items|
    ensures var s, t := Apportioned(pool, whole, items)[g], Apportioned(pool, whole, items)[h];
      (s.allocation == pool * items[g].value / whole + 1 && t.allocation == pool * items[h].value / whole) ==>
        RanksBefore(s, t)
  {
    ApportionedIsLargestRemainder(pool, whole, items);
    var shares := Apportioned(pool, whole, items);
    assert SameItem(shares[g], items[g]) && SameItem(shares[h], items[h]);
    assert shares[g] in shares && shares[h] in shares;
  }

  lemma PartFits(pool: nat, items: seq<Item>, weights: map<nat, int>, whole: nat, k: nat)
    requires DistinctKeys(items) && weights == WeightsOf(items) && Weighted(whole, items)
    requires k in Shared(pool, items)
    ensures k in weights
    ensures Shared(pool, items)[k] == Floored(pool, weights, whole, k)
      || Shared(pool, items)[k] == Floored(pool, weights, whole, k) + 1
  {
    var h := SharedAt(pool, items, k);
    ShareAt(pool, items, whole, h);
  }

  lemma PartsRank(pool: nat, items: seq<Item>, weights: map<nat, int>, whole: nat, j: nat, k: nat)
    requires DistinctKeys(items) && weights == WeightsOf(items) && Weighted(whole, items)
    requires j in Shared(pool, items) && k in Shared(pool, items) && j in weights && k in weights
    requires Shared(pool, items)[j] != Floored(pool, weights, whole, j)
    requires Shared(pool, items)[k] == Floored(pool, weights, whole, k)
    ensures Ahead(pool, weights, whole, j, k)
  {
    var g := SharedAt(pool, items, j);
    var h := SharedAt(pool, items, k);
    ShareAt(pool, items, whole, g);
    ShareAt(pool, items, whole, h);
    WinnersRank(pool, items, whole, g, h);
  }

  /** The map-valued apportionment divides the pool. */
  lemma SharedDivides(pool: nat, items: seq<Item>)
    requires DistinctKeys(items) && Sum(Values(items)) > 0
    ensures Divides(pool, WeightsOf(items), Shared(pool, items))
  {
    var weights, whole, parts := WeightsOf(items), Sum(Values(items)), Shared(pool, items);
    WeightsTotal(items);
    SharedFacts(pool, items);
    assert parts.Keys == weights.Keys;
    forall k | k in weights
      ensures parts[k] == Floored(pool, weights, whole, k) || parts[k] == Floored(pool, weights, whole, k) + 1
    {
      PartFits(pool, items, weights, whole, k);
    }
    forall j, k | j in weights && k in weights
        && parts[j] != Floored(pool, weights, whole, j) && parts[k] == Floored(pool, weights, whole, k)
      ensures Ahead(pool, weights, whole, j, k)
    {
      PartsRank(pool, items, weights, whole, j, k);
    }
  }

  // ---- a division is near its proportions, and there is only one ------------------------

  ghost function ShareOf(pool: int, weights: map<nat, int>, whole: int, parts: map<nat, int>, k: nat): Share
    requires DividedBy(pool, weights, whole, parts) && NonNegative(weights) && pool >= 0 && k in weights
  {
    PartNonNegative(pool, weights, whole, parts, k);
    Share(k, weights[k], parts[k], Rest(pool, weights, whole, k))
  }

  lemma PartNonNegative(pool: int, weights: map<nat, int>, whole: int, parts: map<nat, int>, k: nat)
    requires DividedBy(pool, weights, whole, parts) && NonNegative(weights) && pool >= 0 && k in weights
    ensures parts[k] >= 0 && weights[k] >= 0
  {
    assert pool * weights[k] >= 0;
  }

  ghost function SharesOf(pool: int, weights: map<nat, int>, whole: int, parts: map<nat, int>, keys: seq<nat>)
    : seq<Share>
    requires DividedBy(pool, weights, whole, parts) && NonNegative(weights) && pool >= 0
    requires forall i :: 0 <= i < |keys| ==> keys[i] in weights
  {
    seq(|keys|, i requires 0 <= i < |keys| => ShareOf(pool, weights, whole, parts, keys[i]))
  }

  ghost function ItemsAlong(weights: map<nat, int>, keys: seq<nat>): seq<Item>
    requires NonNegative(weights) && forall i :: 0 <= i < |keys| ==> keys[i] in weights
  {
    seq(|keys|, i requires 0 <= i < |keys| => Item(keys[i], weights[keys[i]]))
  }

  lemma ShareOfFits(pool: int, weights: map<nat, int>, whole: int, parts: map<nat, int>, k: nat)
    requires DividedBy(pool, weights, whole, parts) && NonNegative(weights) && pool >= 0 && k in weights
    ensures var s := ShareOf(pool, weights, whole, parts, k);
      && s.remainder == pool * s.value % whole && (s.allocation == pool * s.value / whole || Won(pool, whole, s))
  {
  }

  lemma SharesRank(pool: int, weights: map<nat, int>, whole: int, parts: map<nat, int>, j: nat, k: nat)
    requires DividedBy(pool, weights, whole, parts) && NonNegative(weights) && pool >= 0
    requires j in weights && k in weights
    requires Won(pool, whole, ShareOf(pool, weights, whole, parts, j))
    requires !Won(pool, whole, ShareOf(pool, weights, whole, parts, k))
    ensures RanksBefore(ShareOf(pool, weights, whole, parts, j), ShareOf(pool, weights, whole, parts, k))
  {
    assert Ahead(pool, weights, whole, j, k);
  }

  lemma SharesSum(pool: int, weights: map<nat, int>, whole: int, parts: map<nat, int>, keys: seq<nat>)
    requires DividedBy(pool, weights, whole, parts) && NonNegative(weights) && pool >= 0
    requires keys == AscendingNats(weights.Keys)
    ensures Sum(Allocations(SharesOf(pool, weights, whole, parts, keys))) == pool
  {
    assert parts.Keys == weights.Keys;
    TotalAscending(parts, keys);
    assert Allocations(SharesOf(pool, weights, whole, parts, keys)) == Along(parts, keys);
  }

  lemma DivisionIsLargestRemainder(pool: int, weights: map<nat, int>, whole: int, parts: map<nat, int>, keys: seq<nat>)
    requires DividedBy(pool, weights, whole, parts) && NonNegative(weights) && pool >= 0
    requires keys == AscendingNats(weights.Keys)
    ensures LargestRemainder(pool, whole, SharesOf(pool, weights, whole, parts, keys))
    ensures SameItems(SharesOf(pool, weights, whole, parts, keys), ItemsAlong(weights, keys))
  {
    var shares := SharesOf(pool, weights, whole, parts, keys);
    SharesSum(pool, weights, whole, parts, keys);
    forall s | s in shares
      ensures s.remainder == pool * s.value % whole && (s.allocation == pool * s.value / whole || Won(pool, whole, s))
    {
      ShareOfFits(pool, weights, whole, parts, s.key);
    }
    forall s, t | s in shares && t in shares && Won(pool, whole, s) && !Won(pool, whole, t)
      ensures RanksBefore(s, t)
    {
      SharesRank(pool, weights, whole, parts, s.key, t.key);
    }
  }

  /** A division as a list of shares. */
  lemma AsShares(pool: int, weights: map<nat, int>, whole: int, parts: map<nat, int>, keys: seq<nat>)
    returns (shares: seq<Share>)
    requires DividedBy(pool, weights, whole, parts) && NonNegative(weights) && pool >= 0
    requires keys == AscendingNats(weights.Keys)
    ensures whole > 0 && LargestRemainder(pool, whole, shares) && SameItems(shares, ItemsAlong(weights, keys))
    ensures forall i :: 0 <= i < |keys| ==> keys[i] in parts && shares[i].allocation == parts[keys[i]]
  {
    shares := SharesOf(pool, weights, whole, parts, keys);
    DivisionIsLargestRemainder(pool, weights, whole, parts, keys);
    forall i | 0 <= i < |keys| ensures shares[i].allocation == parts[keys[i]] { }
  }

  lemma KeyIndex(keys: set<nat>, k: nat) returns (i: nat)
    requires k in keys
    ensures i < |AscendingNats(keys)| && AscendingNats(keys)[i] == k
  {
    AscendingNatsMembers(keys);
    i :| 0 <= i < |AscendingNats(keys)| && AscendingNats(keys)[i] == k;
  }

  lemma ItemsWeigh(weights: map<nat, int>, keys: seq<nat>)
    requires NonNegative(weights) && keys == AscendingNats(weights.Keys) && Total(weights) > 0
    ensures Weighted(Total(weights), ItemsAlong(weights, keys))
  {
    TotalAscending(weights, keys);
    assert Values(ItemsAlong(weights, keys)) == Along(weights, keys);
  }

  lemma NearAt(pool: nat, whole: nat, items: seq<Item>, shares: seq<Share>, i: nat, weight: int, part: int)
    requires Weighted(whole, items) && SameItems(shares, items) && LargestRemainder(pool, whole, shares)
    requires i < |items| && items[i].value == weight && shares[i].allocation == part
    ensures 0 - whole < whole * part - pool * weight < whole
  {
    QuotaRule(pool, whole, items, shares, i);
  }

  /** Each part is within one unit of its proportion. */
  lemma DivisionIsNear(pool: int, weights: map<nat, int>, whole: int, parts: map<nat, int>, k: nat)
    requires DividedBy(pool, weights, whole, parts) && whole == Total(weights)
    requires NonNegative(weights) && pool >= 0 && k in weights
    ensures 0 - whole < whole * parts[k] - pool * weights[k] < whole
  {
    var keys := AscendingNats(weights.Keys);
    var shares := AsShares(pool, weights, whole, parts, keys);
    var i := KeyIndex(weights.Keys, k);
    ItemsWeigh(weights, keys);
    NearAt(pool, whole, ItemsAlong(weights, keys), shares, i, weights[k], parts[k]);
  }

  lemma SameParts(keys: set<nat>, a: map<nat, int>, b: map<nat, int>)
    requires a.Keys == keys && b.Keys == keys
    requires forall i :: 0 <= i < |keys| ==> a[AscendingNats(keys)[i]] == b[AscendingNats(keys)[i]]
    ensures a == b
  {
    forall k | k in keys ensures a[k] == b[k] { var i := KeyIndex(keys, k); }
  }

  lemma DividedUnique(pool: int, weights: map<nat, int>, whole: int, a: map<nat, int>, b: map<nat, int>)
    requires DividedBy(pool, weights, whole, a) && DividedBy(pool, weights, whole, b)
    requires NonNegative(weights) && pool >= 0
    ensures a == b
  {
    var keys := AscendingNats(weights.Keys);
    var x := AsShares(pool, weights, whole, a, keys);
    var y := AsShares(pool, weights, whole, b, keys);
    LargestRemainderUnique(pool, whole, ItemsAlong(weights, keys), x, y);
    SameParts(weights.Keys, a, b);
  }

  /** The definition leaves no choice. */
  lemma DivisionUnique(pool: int, weights: map<nat, int>, a: map<nat, int>, b: map<nat, int>)
    requires Divides(pool, weights, a) && Divides(pool, weights, b) && NonNegative(weights) && pool >= 0
    ensures a == b
  {
    DividedUnique(pool, weights, Total(weights), a, b);
  }
}
