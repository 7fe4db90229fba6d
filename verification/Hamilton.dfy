/** Largest-remainder (Hamilton) apportionment: crates/composition-core/src/hamilton.rs,
    and the same algorithm in research/composition/reference.ts. */
module Hamilton {
  import opened Totals
  import opened Ordering
  import opened FixedPoint

  const U128_MAX: nat := 0xFFFF_FFFF_FFFF_FFFF_FFFF_FFFF_FFFF_FFFF
  const U256_MAX: nat := 0xFFFF_FFFF_FFFF_FFFF_FFFF_FFFF_FFFF_FFFF_FFFF_FFFF_FFFF_FFFF_FFFF_FFFF_FFFF_FFFF

  type U128 = x: nat | x <= U128_MAX

  datatype Error = InvalidHamiltonInputs | ArithmeticOverflow
  datatype Result<+T> = Ok(value: T) | Err(error: Error)

  datatype Item = Item(key: nat, value: nat)

  /** An apportioned item; `value` is kept beside the key, as in the TypeScript form. */
  datatype Share = Share(key: nat, value: nat, allocation: nat, remainder: nat)

  function Values(items: seq<Item>): seq<int> {
    seq(|items|, i requires 0 <= i < |items| => items[i].value)
  }

  function Allocations(shares: seq<Share>): seq<int> {
    seq(|shares|, i requires 0 <= i < |shares| => shares[i].allocation)
  }

  ghost predicate DistinctKeys(items: seq<Item>) {
    forall i, j :: 0 <= i < j < |items| ==> items[i].key != items[j].key
  }

  /** The items weigh exactly `denominator` together. */
  ghost predicate Weighted(denominator: nat, items: seq<Item>) {
    denominator > 0 && Sum(Values(items)) == denominator
  }

  // ---- the algorithm on values -------------------------------------------

  function Floor(pool: nat, denominator: nat, item: Item): Share
    requires denominator > 0
  {
    Share(item.key, item.value, pool * item.value / denominator, pool * item.value % denominator)
  }

  function Floors(pool: nat, denominator: nat, items: seq<Item>): seq<Share>
    requires denominator > 0
  {
    seq(|items|, i requires 0 <= i < |items| => Floor(pool, denominator, items[i]))
  }

  /** Descending remainder, then ascending key. */
  predicate RanksBefore(a: Share, b: Share) {
    a.remainder > b.remainder || (a.remainder == b.remainder && a.key <= b.key)
  }

  predicate KeyLe(a: Share, b: Share) { a.key <= b.key }

  datatype Place = Place(share: Share, index: nat)

  predicate PlaceRanksBefore(a: Place, b: Place) { RanksBefore(a.share, b.share) }

  function Places(shares: seq<Share>): seq<Place> {
    seq(|shares|, i requires 0 <= i < |shares| => Place(shares[i], i))
  }

  /** The index vector, ordered by the shares it points at. */
  function Order(shares: seq<Share>): (order: seq<Place>)
    ensures |order| == |shares|
  {
    SortBy(PlaceRanksBefore, Places(shares))
  }

  function Residual(pool: nat, shares: seq<Share>): int {
    pool - Sum(Allocations(shares))
  }

  function Award(share: Share): Share { share.(allocation := share.allocation + 1) }

  /** One extra unit to each of the first `count` places. */
  function AwardFirst(shares: seq<Share>, order: seq<Place>, count: nat): (r: seq<Share>)
    requires count <= |order|
    requires forall p :: 0 <= p < |order| ==> order[p].index < |shares|
    ensures |r| == |shares|
  {
    if count == 0 then shares else
      var r := AwardFirst(shares, order, count - 1);
      r[order[count - 1].index := Award(r[order[count - 1].index])]
  }

  lemma OrderProperties(shares: seq<Share>)
    ensures Sorted(PlaceRanksBefore, Order(shares))
    ensures Distinct(Order(shares))
    ensures forall p :: 0 <= p < |shares| ==>
      Order(shares)[p].index < |shares| && Order(shares)[p].share == shares[Order(shares)[p].index]
    ensures forall i :: 0 <= i < |shares| ==> Place(shares[i], i) in Order(shares)
  {
    SortSorted(PlaceRanksBefore, Places(shares));
    SortDistinct(PlaceRanksBefore, Places(shares));
    SortMembers(PlaceRanksBefore, Places(shares));
    forall p | 0 <= p < |shares|
      ensures Order(shares)[p].index < |shares| && Order(shares)[p].share == shares[Order(shares)[p].index]
    {
      assert Order(shares)[p] in Places(shares);
    }
    forall i | 0 <= i < |shares| ensures Place(shares[i], i) in Order(shares) {
      assert Places(shares)[i] in Places(shares);
    }
  }

  /** The shares in input order after the residual is handed out. */
  function Apportioned(pool: nat, denominator: nat, items: seq<Item>): (r: seq<Share>)
    requires Weighted(denominator, items)
    ensures |r| == |items|
  {
    var floors := Floors(pool, denominator, items);
    ResidualInRange(pool, denominator, items);
    OrderProperties(floors);
    AwardFirst(floors, Order(floors), Residual(pool, floors))
  }

  /** What `apportion` returns: the shares in ascending key order. */
  function Apportionment(pool: nat, denominator: nat, items: seq<Item>): seq<Share>
    requires Weighted(denominator, items)
  {
    SortBy(KeyLe, Apportioned(pool, denominator, items))
  }

  // ---- the residual ------------------------------------------------------

  lemma FloorParts(pool: nat, denominator: nat, item: Item)
    requires denominator > 0
    ensures pool * item.value
      == denominator * Floor(pool, denominator, item).allocation + Floor(pool, denominator, item).remainder
    ensures Floor(pool, denominator, item).remainder < denominator
  {
  }

  function Remainders(shares: seq<Share>): seq<int> {
    seq(|shares|, i requires 0 <= i < |shares| => shares[i].remainder)
  }

  /** The floors leave exactly the remainders to be handed out. */
  lemma ResidualWeight(pool: nat, denominator: nat, items: seq<Item>)
    requires Weighted(denominator, items)
    ensures denominator * Residual(pool, Floors(pool, denominator, items))
         == Sum(Remainders(Floors(pool, denominator, items)))
  {
    var floors := Floors(pool, denominator, items);
    var exact := seq(|items|, i requires 0 <= i < |items| => pool * items[i].value);
    SumScale(Values(items), pool, exact);
    forall i | 0 <= i < |items|
      ensures exact[i] == denominator * Allocations(floors)[i] + 1 * Remainders(floors)[i]
    {
      FloorParts(pool, denominator, items[i]);
    }
    SumLinear(Allocations(floors), Remainders(floors), denominator, 1, exact);
    assert denominator * (pool - Sum(Allocations(floors)))
      == denominator * pool - denominator * Sum(Allocations(floors));
  }

  lemma ResidualInRange(pool: nat, denominator: nat, items: seq<Item>)
    requires Weighted(denominator, items)
    ensures 0 <= Residual(pool, Floors(pool, denominator, items)) < |items|
  {
    var floors := Floors(pool, denominator, items);
    var n := |items|;
    var rs := Remainders(floors);
    var r := Residual(pool, floors);
    ResidualWeight(pool, denominator, items);
    SumMonotone(seq(n, _ => 0), rs);
    SumConstant(seq(n, _ => 0), 0);
    SumMonotone(rs, seq(n, _ => denominator - 1));
    SumConstant(seq(n, _ => denominator - 1), denominator - 1);
    assert n > 0;
    assert denominator * r <= n * (denominator - 1) < n * denominator;
    CancelLess(denominator, r, n);
    CancelLess(denominator, -1, r);
  }

  // ---- the reference definition ------------------------------------------

  predicate Won(pool: nat, denominator: nat, s: Share)
    requires denominator > 0
  {
    s.allocation == pool * s.value / denominator + 1
  }

  /** A largest-remainder apportionment, said without an algorithm: every share is its floor or
      one more, the shares use up the pool, and no loser ranks before a winner. */
  ghost predicate LargestRemainder(pool: nat, denominator: nat, shares: seq<Share>)
    requires denominator > 0
  {
    && (forall s :: s in shares ==>
         && s.remainder == pool * s.value % denominator
         && (s.allocation == pool * s.value / denominator || Won(pool, denominator, s)))
    && Sum(Allocations(shares)) == pool
    && (forall s, t :: s in shares && t in shares && Won(pool, denominator, s) && !Won(pool, denominator, t) ==>
      RanksBefore(s, t))
  }

  predicate SameItem(s: Share, item: Item) { s.key == item.key && s.value == item.value }

  ghost predicate SameItems(shares: seq<Share>, items: seq<Item>) {
    |shares| == |items| && forall i :: 0 <= i < |items| ==> SameItem(shares[i], items[i])
  }

  /** Place `p` got its extra unit exactly when it is among the first `count`. */
  predicate Awarded(shares: seq<Share>, out: seq<Share>, order: seq<Place>, count: nat, p: nat)
    requires p < |order| && order[p].index < |shares| == |out|
  {
    var i := order[p].index;
    out[i] == if p < count then Award(shares[i]) else shares[i]
  }

  lemma {:induction false} AwardFirstEffect(shares: seq<Share>, order: seq<Place>, count: nat)
    requires count <= |order|
    requires forall p :: 0 <= p < |order| ==> order[p].index < |shares|
    requires forall p, q :: 0 <= p < q < |order| ==> order[p].index != order[q].index
    ensures Sum(Allocations(AwardFirst(shares, order, count))) == Sum(Allocations(shares)) + count
    ensures forall p :: 0 <= p < |order| ==> Awarded(shares, AwardFirst(shares, order, count), order, count, p)
  {
    if count > 0 {
      AwardFirstEffect(shares, order, count - 1);
      var r := AwardFirst(shares, order, count - 1);
      var k := order[count - 1].index;
      SumUpdate(Allocations(r), k, r[k].allocation + 1);
      assert Allocations(AwardFirst(shares, order, count)) == Allocations(r)[k := r[k].allocation + 1];
      forall p | 0 <= p < |order|
        ensures Awarded(shares, AwardFirst(shares, order, count), order, count, p)
      {
        assert Awarded(shares, r, order, count - 1, p);
        assert p != count - 1 ==> order[p].index != k;
      }
    }
  }

  /** Where a share of the result stands in the residual order. */
  lemma PlaceOf(pool: nat, denominator: nat, items: seq<Item>, i: nat) returns (p: nat)
    requires Weighted(denominator, items) && i < |items|
    ensures |Order(Floors(pool, denominator, items))| == |items|
    ensures p < |items| && Order(Floors(pool, denominator, items))[p] == Place(Floor(pool, denominator, items[i]), i)
    ensures Apportioned(pool, denominator, items)[i] ==
      var floor := Floor(pool, denominator, items[i]);
      if p < Residual(pool, Floors(pool, denominator, items)) then Award(floor) else floor
  {
    var floors := Floors(pool, denominator, items);
    var order, count := Order(floors), Residual(pool, floors);
    ResidualInRange(pool, denominator, items);
    OrderProperties(floors);
    forall p, q | 0 <= p < q < |order| ensures order[p].index != order[q].index {
      assert order[p].share == floors[order[p].index] && order[q].share == floors[order[q].index];
    }
    AwardFirstEffect(floors, order, count);
    assert Place(floors[i], i) in order;
    p :| 0 <= p < |order| && order[p] == Place(floors[i], i);
    assert Awarded(floors, AwardFirst(floors, order, count), order, count, p);
  }

  lemma ApportionedSum(pool: nat, denominator: nat, items: seq<Item>)
    requires Weighted(denominator, items)
    ensures Sum(Allocations(Apportioned(pool, denominator, items))) == pool
  {
    var floors := Floors(pool, denominator, items);
    var order, count := Order(floors), Residual(pool, floors);
    ResidualInRange(pool, denominator, items);
    OrderProperties(floors);
    forall p, q | 0 <= p < q < |order| ensures order[p].index != order[q].index {
      assert order[p].share == floors[order[p].index] && order[q].share == floors[order[q].index];
    }
    AwardFirstEffect(floors, order, count);
  }

  /** The algorithm meets the reference definition. */
  lemma ApportionedIsLargestRemainder(pool: nat, denominator: nat, items: seq<Item>)
    requires Weighted(denominator, items)
    ensures SameItems(Apportioned(pool, denominator, items), items)
    ensures LargestRemainder(pool, denominator, Apportioned(pool, denominator, items))
  {
    var order := Order(Floors(pool, denominator, items));
    var out := Apportioned(pool, denominator, items);
    ApportionedSum(pool, denominator, items);
    OrderProperties(Floors(pool, denominator, items));
    forall i | 0 <= i < |items| ensures SameItem(out[i], items[i]) {
      var p := PlaceOf(pool, denominator, items, i);
    }
    forall s | s in out
      ensures s.remainder == pool * s.value % denominator
      ensures s.allocation == pool * s.value / denominator || Won(pool, denominator, s)
    {
      var i :| 0 <= i < |out| && out[i] == s;
      var p := PlaceOf(pool, denominator, items, i);
    }
    forall s, t | s in out && t in out && Won(pool, denominator, s) && !Won(pool, denominator, t)
      ensures RanksBefore(s, t)
    {
      var i :| 0 <= i < |out| && out[i] == s;
      var j :| 0 <= j < |out| && out[j] == t;
      var p := PlaceOf(pool, denominator, items, i);
      var q := PlaceOf(pool, denominator, items, j);
      assert PlaceRanksBefore(order[p], order[q]);
    }
  }

  // ---- uniqueness --------------------------------------------------------

  /** With distinct keys the reference definition has one solution. */
  lemma LargestRemainderUnique(pool: nat, denominator: nat, items: seq<Item>, a: seq<Share>, b: seq<Share>)
    requires denominator > 0 && DistinctKeys(items)
    requires SameItems(a, items) && SameItems(b, items)
    requires LargestRemainder(pool, denominator, a) && LargestRemainder(pool, denominator, b)
    ensures a == b
  {
    forall i | 0 <= i < |items| ensures !(a[i].allocation < b[i].allocation) {
      NotBelow(pool, denominator, items, a, b, i);
    }
    forall i | 0 <= i < |items| ensures a[i] == b[i] {
      if b[i].allocation < a[i].allocation { NotBelow(pool, denominator, items, b, a, i); }
      assert a[i] in a && b[i] in b;
    }
  }

  /** Two solutions cannot trade the unit of one item for the unit of another. */
  lemma NoExchange(pool: nat, denominator: nat, items: seq<Item>, a: seq<Share>, b: seq<Share>, i: nat, j: nat)
    requires denominator > 0 && DistinctKeys(items) && i < |items| && j < |items|
    requires SameItems(a, items) && SameItems(b, items)
    requires LargestRemainder(pool, denominator, a) && LargestRemainder(pool, denominator, b)
    requires a[i].allocation < b[i].allocation
    ensures a[j].allocation <= b[j].allocation
  {
    assert a[i] in a && a[j] in a && b[i] in b && b[j] in b;
    assert i < j ==> items[i].key != items[j].key;
    assert j < i ==> items[j].key != items[i].key;
    var fi, fj := pool * items[i].value / denominator, pool * items[j].value / denominator;
    assert a[i].allocation == fi && b[i].allocation == fi + 1;
    assert a[j].allocation == fj + 1 && b[j].allocation == fj ==> RanksBefore(a[j], a[i]) && RanksBefore(b[i], b[j]);
  }

  lemma NotBelow(pool: nat, denominator: nat, items: seq<Item>, a: seq<Share>, b: seq<Share>, i: nat)
    requires denominator > 0 && DistinctKeys(items) && i < |items|
    requires SameItems(a, items) && SameItems(b, items)
    requires LargestRemainder(pool, denominator, a) && LargestRemainder(pool, denominator, b)
    ensures !(a[i].allocation < b[i].allocation)
  {
    var x, y := Allocations(a), Allocations(b);
    if x[i] < y[i] {
      if forall j :: 0 <= j < |x| ==> x[j] <= y[j] {
        SumStrict(x, y, i);
      } else {
        var j :| 0 <= j < |x| && y[j] < x[j];
        NoExchange(pool, denominator, items, a, b, i, j);
      }
    }
  }

  /** The algorithm computes the apportionment the reference definition names, and no other. */
  lemma ApportionedExactly(pool: nat, denominator: nat, items: seq<Item>, shares: seq<Share>)
    requires Weighted(denominator, items) && DistinctKeys(items)
    ensures SameItems(shares, items) && LargestRemainder(pool, denominator, shares)
      <==> shares == Apportioned(pool, denominator, items)
  {
    ApportionedIsLargestRemainder(pool, denominator, items);
    if SameItems(shares, items) && LargestRemainder(pool, denominator, shares) {
      LargestRemainderUnique(pool, denominator, items, shares, Apportioned(pool, denominator, items));
    }
  }

  // ---- the quota rule ----------------------------------------------------

  /** How far each share is above its exact part, in units of one over the denominator. */
  function Gaps(pool: nat, denominator: nat, shares: seq<Share>): seq<int>
  {
    seq(|shares|, i requires 0 <= i < |shares| => denominator * shares[i].allocation - pool * shares[i].value)
  }

  /** Over all shares the gaps above balance the gaps below. */
  lemma GapsBalance(pool: nat, denominator: nat, items: seq<Item>, shares: seq<Share>)
    requires Weighted(denominator, items) && SameItems(shares, items) && Sum(Allocations(shares)) == pool
    ensures Sum(Gaps(pool, denominator, shares)) == 0
  {
    assert forall i :: 0 <= i < |shares| ==> shares[i].value == Values(items)[i];
    SumLinear(Allocations(shares), Values(items), denominator, 0 - pool, Gaps(pool, denominator, shares));
    assert denominator * pool + (0 - pool) * denominator == 0;
  }

  lemma GapOfWinner(pool: nat, denominator: nat, item: Item, s: Share)
    requires denominator > 0 && SameItem(s, item) && Won(pool, denominator, s)
    ensures denominator * s.allocation - pool * s.value >= 1
  {
    FloorParts(pool, denominator, item);
    Distributes(denominator, pool * s.value / denominator, 1);
  }

  lemma GapOfOther(pool: nat, denominator: nat, item: Item, s: Share)
    requires denominator > 0 && SameItem(s, item) && s.allocation == pool * s.value / denominator
    requires s.remainder == pool * s.value % denominator == 0
    ensures denominator * s.allocation - pool * s.value == 0
  {
    FloorParts(pool, denominator, item);
  }

  /** A winner has a positive remainder, so no share exceeds the ceiling of its exact part. */
  lemma WinnerHasRemainder(pool: nat, denominator: nat, items: seq<Item>, shares: seq<Share>, k: nat)
    requires Weighted(denominator, items) && SameItems(shares, items)
    requires LargestRemainder(pool, denominator, shares)
    requires k < |shares| && Won(pool, denominator, shares[k])
    ensures shares[k].remainder > 0
  {
    GapsBalance(pool, denominator, items, shares);
    assert shares[k] in shares;
    if shares[k].remainder == 0 {
      forall i | 0 <= i < |shares| ensures Gaps(pool, denominator, shares)[i] >= if i == k then 1 else 0 {
        assert shares[i] in shares;
        if Won(pool, denominator, shares[i]) {
          GapOfWinner(pool, denominator, items[i], shares[i]);
        } else {
          assert RanksBefore(shares[k], shares[i]);
          GapOfOther(pool, denominator, items[i], shares[i]);
        }
      }
      SumAtLeastTerm(Gaps(pool, denominator, shares), k);
    }
  }

  /** Every share is the floor or the ceiling of its exact part; both when the part is whole. */
  lemma QuotaRule(pool: nat, denominator: nat, items: seq<Item>, shares: seq<Share>, k: nat)
    requires Weighted(denominator, items) && SameItems(shares, items)
    requires LargestRemainder(pool, denominator, shares) && k < |shares|
    ensures 0 - denominator < denominator * shares[k].allocation - pool * items[k].value < denominator
    ensures pool * items[k].value % denominator == 0 ==> denominator * shares[k].allocation == pool * items[k].value
  {
    assert shares[k] in shares;
    FloorParts(pool, denominator, items[k]);
    if Won(pool, denominator, shares[k]) {
      WinnerHasRemainder(pool, denominator, items, shares, k);
      assert denominator * (pool * items[k].value / denominator + 1)
          == denominator * (pool * items[k].value / denominator) + denominator;
    }
  }

  /** Allocating a source exactly its own total reproduces every value. */
  lemma OwnTotalReproducesValues(denominator: nat, items: seq<Item>, k: nat)
    requires Weighted(denominator, items) && k < |items|
    ensures Apportioned(denominator, denominator, items)[k].allocation == items[k].value
  {
    ApportionedIsLargestRemainder(denominator, denominator, items);
    assert denominator * items[k].value % denominator == 0 by {
      Multiple(denominator, items[k].value);
    }
    var shares := Apportioned(denominator, denominator, items);
    QuotaRule(denominator, denominator, items, shares, k);
    SameProduct(denominator, shares[k].allocation, items[k].value);
  }

  /** From one floor, the larger weight leaves the larger remainder. */
  lemma LargerWeightParts(pool: nat, denominator: nat, larger: Item, smaller: Item)
    requires denominator > 0 && larger.value > smaller.value
    ensures var l, s := Floor(pool, denominator, larger), Floor(pool, denominator, smaller);
      l.allocation > s.allocation
        || (l.allocation == s.allocation && (l.remainder > s.remainder || pool == l.remainder == s.remainder == 0))
  {
    FloorParts(pool, denominator, larger);
    FloorParts(pool, denominator, smaller);
    Scaled(pool, smaller.value, larger.value);
    DivisionMonotone(pool * smaller.value, pool * larger.value, denominator);
    assert pool * (larger.value - smaller.value) == pool * larger.value - pool * smaller.value;
    PositiveProduct(pool, larger.value - smaller.value);
    assert pool == 0 ==> pool * larger.value == pool * smaller.value == 0;
  }

  /** Never less for a larger weight. */
  lemma LargerWeightNotLess(pool: nat, denominator: nat, items: seq<Item>, shares: seq<Share>, i: nat, j: nat)
    requires Weighted(denominator, items) && SameItems(shares, items)
    requires LargestRemainder(pool, denominator, shares)
    requires i < |items| && j < |items| && items[i].value > items[j].value
    ensures shares[i].allocation >= shares[j].allocation
  {
    var s, t := shares[i], shares[j];
    assert s in shares && t in shares;
    LargerWeightParts(pool, denominator, items[i], items[j]);
    assert s.remainder == Floor(pool, denominator, items[i]).remainder;
    assert t.remainder == Floor(pool, denominator, items[j]).remainder;
    if Won(pool, denominator, t) {
      WinnerHasRemainder(pool, denominator, items, shares, j);
    }
  }

  // ---- optimality --------------------------------------------------------

  function Deviations(pool: nat, denominator: nat, items: seq<Item>, b: seq<int>): seq<int>
    requires |b| == |items|
  {
    seq(|b|, i requires 0 <= i < |b| => Abs(b[i] * denominator - pool * items[i].value))
  }

  /** The largest remainder of a loser. */
  ghost function Cut(pool: nat, denominator: nat, shares: seq<Share>): (t: nat)
    requires denominator > 0
    requires forall s :: s in shares ==> s.remainder < denominator
    ensures t < denominator
    ensures forall s :: s in shares && !Won(pool, denominator, s) ==> s.remainder <= t
    ensures t == 0 || exists s :: s in shares && !Won(pool, denominator, s) && s.remainder == t
  {
    if shares == [] then 0 else
      var t := Cut(pool, denominator, shares[1..]);
      assert shares == [shares[0]] + shares[1..];
      if !Won(pool, denominator, shares[0]) && shares[0].remainder > t then
        assert shares[0] in shares;
        shares[0].remainder
      else t
  }

  /** The choice between floor and floor + 1 at the cut is the best integer under one common price. */
  lemma PricedChoice(denominator: int, cut: int, product: int, floor: int, remainder: int, a: int, b: int)
    requires 0 <= cut < denominator && product == floor * denominator + remainder && 0 <= remainder < denominator
    requires (a == floor && remainder <= cut) || (a == floor + 1 && remainder >= cut)
    ensures Abs(a * denominator - product) - (denominator - 2 * cut) * a
         <= Abs(b * denominator - product) - (denominator - 2 * cut) * b
  {
    var m := b - floor;
    assert b * denominator - product == m * denominator - remainder;
    assert (denominator - 2 * cut) * b == (denominator - 2 * cut) * floor + m * denominator - 2 * (m * cut);
    assert (floor + 1) * denominator == floor * denominator + denominator;
    assert (denominator - 2 * cut) * (floor + 1) == (denominator - 2 * cut) * floor + denominator - 2 * cut;
    if m <= 0 {
      assert m * denominator <= m * cut <= 0 by { Scaled(-m, cut, denominator); }
    } else {
      assert m * cut >= cut && m * denominator >= denominator by { AtLeastOne(m, cut); AtLeastOne(m, denominator); }
    }
  }

  function Priced(d: seq<int>, a: seq<int>, price: int): seq<int>
    requires |d| == |a|
  {
    seq(|a|, i requires 0 <= i < |a| => d[i] - price * a[i])
  }

  lemma PricedSum(d: seq<int>, a: seq<int>, price: int)
    requires |d| == |a|
    ensures Sum(Priced(d, a, price)) == Sum(d) - price * Sum(a)
  {
    var costs := seq(|a|, i requires 0 <= i < |a| => price * a[i]);
    SumScale(a, price, costs);
    SumLinear(d, costs, 1, -1, Priced(d, a, price));
  }

  lemma PricedSums(da: seq<int>, a: seq<int>, db: seq<int>, b: seq<int>, price: int)
    requires |da| == |a| == |db| == |b| && Sum(a) == Sum(b)
    requires forall i :: 0 <= i < |a| ==> Priced(da, a, price)[i] <= Priced(db, b, price)[i]
    ensures Sum(da) <= Sum(db)
  {
    SumMonotone(Priced(da, a, price), Priced(db, b, price));
    PricedSum(da, a, price);
    PricedSum(db, b, price);
  }

  /** The price that separates winners from losers. */
  ghost function Price(pool: nat, denominator: nat, shares: seq<Share>): int
    requires denominator > 0 && LargestRemainder(pool, denominator, shares)
  {
    denominator - 2 * Cut(pool, denominator, shares)
  }

  lemma PricedShare(pool: nat, denominator: nat, items: seq<Item>, shares: seq<Share>, i: nat, b: int)
    requires denominator > 0 && SameItems(shares, items) && i < |items|
    requires LargestRemainder(pool, denominator, shares)
    ensures Abs(shares[i].allocation * denominator - pool * items[i].value)
      - Price(pool, denominator, shares) * shares[i].allocation
      <= Abs(b * denominator - pool * items[i].value) - Price(pool, denominator, shares) * b
  {
    var cut := Cut(pool, denominator, shares);
    var s := shares[i];
    assert s in shares;
    FloorParts(pool, denominator, items[i]);
    if Won(pool, denominator, s) && cut != 0 {
      var t :| t in shares && !Won(pool, denominator, t) && t.remainder == cut;
      assert RanksBefore(s, t);
    }
    PricedChoice(denominator, cut, pool * s.value, pool * s.value / denominator, s.remainder, s.allocation, b);
  }

  lemma PricedShares(pool: nat, denominator: nat, items: seq<Item>, shares: seq<Share>, b: seq<int>, i: nat)
    requires denominator > 0 && SameItems(shares, items) && i < |items| == |b|
    requires LargestRemainder(pool, denominator, shares)
    ensures var a, price := Allocations(shares), Price(pool, denominator, shares);
      Priced(Deviations(pool, denominator, items, a), a, price)[i]
        <= Priced(Deviations(pool, denominator, items, b), b, price)[i]
  {
    PricedShare(pool, denominator, items, shares, i, b[i]);
  }

  /** No integer vector with the same total is closer, in L1, to the exact parts. */
  lemma Optimal(pool: nat, denominator: nat, items: seq<Item>, shares: seq<Share>, b: seq<int>)
    requires Weighted(denominator, items) && SameItems(shares, items)
    requires LargestRemainder(pool, denominator, shares)
    requires |b| == |items| && Sum(b) == pool
    ensures Sum(Deviations(pool, denominator, items, Allocations(shares)))
         <= Sum(Deviations(pool, denominator, items, b))
  {
    var a, price := Allocations(shares), Price(pool, denominator, shares);
    var da, db := Deviations(pool, denominator, items, a), Deviations(pool, denominator, items, b);
    forall i | 0 <= i < |items| ensures Priced(da, a, price)[i] <= Priced(db, b, price)[i] {
      PricedShares(pool, denominator, items, shares, b, i);
    }
    PricedSums(da, a, db, b, price);
  }

  // ---- the order of the input --------------------------------------------

  lemma LargestRemainderPermuted(pool: nat, denominator: nat, a: seq<Share>, b: seq<Share>)
    requires denominator > 0 && multiset(a) == multiset(b) && LargestRemainder(pool, denominator, a)
    ensures LargestRemainder(pool, denominator, b)
  {
    forall s ensures s in b ==> s in a {
      assert s in b ==> s in multiset(b);
    }
    AllocationsPermuted(a, b);
  }

  lemma AllocationsRemove(b: seq<Share>, i: nat)
    requires i < |b|
    ensures Sum(Allocations(b)) == b[i].allocation + Sum(Allocations(b[..i] + b[i + 1..]))
  {
    SumRemove(Allocations(b), i);
    assert Allocations(b)[..i] + Allocations(b)[i + 1..] == Allocations(b[..i] + b[i + 1..]);
  }

  lemma {:induction false} AllocationsPermuted(a: seq<Share>, b: seq<Share>)
    requires multiset(a) == multiset(b)
    ensures Sum(Allocations(a)) == Sum(Allocations(b))
    decreases |a|
  {
    if a == [] {
      assert |b| == |multiset(b)| == 0;
    } else {
      assert a[0] in multiset(b);
      var i :| 0 <= i < |b| && b[i] == a[0];
      AllocationsRemove(a, 0);
      AllocationsRemove(b, i);
      assert a[..0] + a[1..] == a[1..];
      TailElements(a);
      RemoveElement(b, i);
      AllocationsPermuted(a[1..], b[..i] + b[i + 1..]);
    }
  }

  function ItemsOf(shares: seq<Share>): seq<Item> {
    seq(|shares|, i requires 0 <= i < |shares| => Item(shares[i].key, shares[i].value))
  }

  lemma ItemsOfSorted(items: seq<Item>, shares: seq<Share>)
    requires SameItems(shares, items)
    ensures forall x :: x in ItemsOf(SortBy(KeyLe, shares)) <==> x in items
  {
    var r := SortBy(KeyLe, shares);
    SortMembers(KeyLe, shares);
    forall x | x in items ensures x in ItemsOf(r) {
      var i :| 0 <= i < |items| && items[i] == x;
      assert shares[i] in r;
      var k :| 0 <= k < |r| && r[k] == shares[i];
      assert ItemsOf(r)[k] == x;
    }
    forall x | x in ItemsOf(r) ensures x in items {
      var k :| 0 <= k < |r| && ItemsOf(r)[k] == x;
      assert r[k] in shares;
      var i :| 0 <= i < |shares| && shares[i] == r[k];
      assert items[i] == x;
    }
  }

  lemma SortedKeysAscend(items: seq<Item>, shares: seq<Share>)
    requires SameItems(shares, items) && DistinctKeys(items)
    ensures forall i, j :: 0 <= i < j < |shares| ==> SortBy(KeyLe, shares)[i].key < SortBy(KeyLe, shares)[j].key
  {
    var r := SortBy(KeyLe, shares);
    forall i, j | 0 <= i < j < |shares| ensures shares[i] != shares[j] {
      assert items[i].key != items[j].key;
    }
    SortSorted(KeyLe, shares);
    SortMembers(KeyLe, shares);
    SortDistinct(KeyLe, shares);
    forall i, j | 0 <= i < j < |r| ensures r[i].key < r[j].key {
      assert KeyLe(r[i], r[j]) && r[i] != r[j];
      assert r[i] in shares && r[j] in shares;
      KeysTellApart(items, shares, r[i], r[j]);
    }
  }

  lemma KeysTellApart(items: seq<Item>, shares: seq<Share>, s: Share, t: Share)
    requires SameItems(shares, items) && DistinctKeys(items) && s in shares && t in shares && s != t
    ensures s.key != t.key
  {
    var x :| 0 <= x < |shares| && shares[x] == s;
    var y :| 0 <= y < |shares| && shares[y] == t;
    assert x < y ==> items[x].key != items[y].key;
    assert y < x ==> items[y].key != items[x].key;
  }

  /** The result is the largest-remainder apportionment of the items in key order. */
  lemma ApportionIsSorted(pool: nat, denominator: nat, items: seq<Item>)
    requires Weighted(denominator, items) && DistinctKeys(items)
    ensures LargestRemainder(pool, denominator, Apportionment(pool, denominator, items))
    ensures forall i, j :: 0 <= i < j < |Apportionment(pool, denominator, items)| ==>
      Apportionment(pool, denominator, items)[i].key < Apportionment(pool, denominator, items)[j].key
    ensures forall x :: x in ItemsOf(Apportionment(pool, denominator, items)) <==> x in items
  {
    var a := Apportioned(pool, denominator, items);
    ApportionedIsLargestRemainder(pool, denominator, items);
    SortElements(KeyLe, a);
    LargestRemainderPermuted(pool, denominator, a, SortBy(KeyLe, a));
    SortedKeysAscend(items, a);
    ItemsOfSorted(items, a);
  }

  lemma KeyOrderedItems(a: seq<Item>, b: seq<Item>)
    requires forall i, j :: 0 <= i < j < |a| ==> a[i].key < a[j].key
    requires forall i, j :: 0 <= i < j < |b| ==> b[i].key < b[j].key
    requires forall x :: x in a <==> x in b
    ensures a == b
  {
    assert b != [] ==> b[0] in a;
    if a != [] {
      assert a[0] in b;
      assert a[0] == b[0];
      assert a == [a[0]] + a[1..] && b == [b[0]] + b[1..];
      forall x ensures x in a[1..] <==> x in b[1..] {
        assert x in a[1..] <==> x in a && x != a[0];
        assert x in b[1..] <==> x in b && x != b[0];
      }
      KeyOrderedItems(a[1..], b[1..]);
    }
  }

  /** With distinct keys the order of the input does not matter. */
  lemma OrderOfInputIrrelevant(pool: nat, denominator: nat, a: seq<Item>, b: seq<Item>)
    requires Weighted(denominator, a) && Weighted(denominator, b)
    requires DistinctKeys(a) && DistinctKeys(b) && forall x :: x in a <==> x in b
    ensures Apportionment(pool, denominator, a) == Apportionment(pool, denominator, b)
  {
    var x, y := Apportionment(pool, denominator, a), Apportionment(pool, denominator, b);
    ApportionIsSorted(pool, denominator, a);
    ApportionIsSorted(pool, denominator, b);
    KeyOrderedItems(ItemsOf(x), ItemsOf(y));
    assert forall i :: 0 <= i < |x| ==> ItemsOf(x)[i] == ItemsOf(y)[i];
    assert DistinctKeys(ItemsOf(x));
    LargestRemainderUnique(pool, denominator, ItemsOf(x), x, y);
  }

  /** Items already in key order come back in place. */
  lemma ApportionInPlace(pool: nat, denominator: nat, items: seq<Item>)
    requires Weighted(denominator, items)
    requires forall i, j :: 0 <= i < j < |items| ==> items[i].key < items[j].key
    ensures Apportionment(pool, denominator, items) == Apportioned(pool, denominator, items)
  {
    ApportionedIsLargestRemainder(pool, denominator, items);
    SortIdempotent(KeyLe, Apportioned(pool, denominator, items));
  }

  // ---- the checked implementation -----------------------------------------

  /** The running `checked_add` over the values; a zero value stops it first. */
  function CheckedSum(items: seq<Item>): Result<nat>
  {
    if items == [] then Ok(0) else
      var item := items[|items| - 1];
      match CheckedSum(items[..|items| - 1])
      case Err(e) => Err(e)
      case Ok(sum) =>
        if item.value == 0 then Err(InvalidHamiltonInputs)
        else if sum + item.value > U128_MAX then Err(ArithmeticOverflow)
        else Ok(sum + item.value)
  }

  /** What `apportion` answers before it divides anything. */
  function Admission(denominator: nat, items: seq<Item>): Result<nat>
  {
    if denominator == 0 || items == [] then Err(InvalidHamiltonInputs) else
      match CheckedSum(items)
      case Err(e) => Err(e)
      case Ok(sum) => if sum != denominator then Err(InvalidHamiltonInputs) else Ok(sum)
  }

  ghost predicate PositiveValues(items: seq<Item>) {
    forall i :: 0 <= i < |items| ==> items[i].value > 0
  }

  lemma {:induction false} CheckedSumMeaning(items: seq<Item>)
    ensures CheckedSum(items).Ok? <==> PositiveValues(items) && Sum(Values(items)) <= U128_MAX
    ensures CheckedSum(items).Ok? ==> CheckedSum(items).value == Sum(Values(items))
  {
    if items != [] {
      var n := |items| - 1;
      CheckedSumMeaning(items[..n]);
      assert Values(items)[..n] == Values(items[..n]);
      assert PositiveValues(items) <==> PositiveValues(items[..n]) && items[n].value > 0 by {
        if PositiveValues(items) {
          forall i | 0 <= i < n ensures items[..n][i].value > 0 { assert items[i].value > 0; }
        }
        if PositiveValues(items[..n]) && items[n].value > 0 {
          forall i | 0 <= i < |items| ensures items[i].value > 0 {
            if i < n { assert items[..n][i].value > 0; }
          }
        }
      }
    }
  }

  /** Admitted exactly when the values are positive and weigh the (128-bit) denominator. */
  lemma AdmissionMeaning(denominator: U128, items: seq<Item>)
    ensures Admission(denominator, items).Ok? <==> PositiveValues(items) && Weighted(denominator, items)
  {
    CheckedSumMeaning(items);
    if items == [] { assert Values(items) == []; }
  }

  lemma {:induction false} CheckedSumStops(items: seq<Item>, n: nat)
    requires n <= |items| && CheckedSum(items[..n]).Err?
    ensures CheckedSum(items) == CheckedSum(items[..n])
    decreases |items| - n
  {
    if n < |items| {
      assert items[..n + 1][..n] == items[..n];
      CheckedSumStops(items, n + 1);
    } else {
      assert items[..n] == items;
    }
  }

  /** A product of two 128-bit words fits 256 bits. */
  lemma ProductFits(a: U128, b: U128)
    ensures a * b <= U256_MAX
  {
    Scaled(a, b, U128_MAX);
    Scaled(U128_MAX, a, U128_MAX);
  }

  lemma QuotientFits(pool: nat, value: nat, denominator: nat)
    requires 0 < denominator && value <= denominator
    ensures pool * value / denominator <= pool
  {
    Scaled(pool, value, denominator);
    DivisionMonotone(pool * value, denominator * pool, denominator);
    Multiple(denominator, pool);
    SameProduct(denominator, denominator * pool / denominator, pool);
  }

  lemma ValueWithinSum(items: seq<Item>, i: nat)
    requires i < |items|
    ensures items[i].value <= Sum(Values(items))
  {
    SumAtLeastTerm(Values(items), i);
  }

  /** The running total of the floors never passes the pool. */
  lemma AllocatedWithinPool(pool: nat, denominator: nat, items: seq<Item>, i: nat)
    requires Weighted(denominator, items) && i < |items|
    ensures Sum(Allocations(Floors(pool, denominator, items))[..i + 1]) <= pool
  {
    ResidualInRange(pool, denominator, items);
    PrefixWithin(Allocations(Floors(pool, denominator, items)), i + 1);
  }

  /** Before its extra unit a share is below the pool. */
  lemma AwardBelowPool(pool: nat, denominator: nat, items: seq<Item>, p: nat)
    requires Weighted(denominator, items)
    requires p < Residual(pool, Floors(pool, denominator, items)) <= |items|
    requires forall q :: 0 <= q < |items| ==> Order(Floors(pool, denominator, items))[q].index < |items|
    ensures var floors := Floors(pool, denominator, items);
      AwardFirst(floors, Order(floors), p)[Order(floors)[p].index].allocation < pool
  {
    var floors := Floors(pool, denominator, items);
    var order := Order(floors);
    OrderProperties(floors);
    forall i, j | 0 <= i < j < |order| ensures order[i].index != order[j].index {
      assert order[i].share == floors[order[i].index] && order[j].share == floors[order[j].index];
    }
    AwardFirstEffect(floors, order, p);
    SumAtLeastTerm(Allocations(AwardFirst(floors, order, p)), order[p].index);
  }

  /** The `try_fold` over the values. */
  method AddValues(items: seq<Item>) returns (r: Result<nat>)
    ensures r == CheckedSum(items)
  {
    var sum: nat := 0;
    for i := 0 to |items|
      invariant CheckedSum(items[..i]) == Ok(sum)
    {
      assert items[..i + 1][..i] == items[..i];
      if items[i].value == 0 {
        CheckedSumStops(items, i + 1);
        return Err(InvalidHamiltonInputs);
      }
      if sum + items[i].value > U128_MAX {
        CheckedSumStops(items, i + 1);
        return Err(ArithmeticOverflow);
      }
      sum := sum + items[i].value;
    }
    assert items[..|items|] == items;
    r := Ok(sum);
  }

  /** One checked product and quotient. */
  method Divide(pool: U128, denominator: U128, item: Item) returns (floor: Share)
    requires 0 < denominator && item.value <= denominator
    ensures floor == Floor(pool, denominator, item)
  {
    ProductFits(pool, item.value);
    if pool * item.value > U256_MAX { assert false; }
    floor := Floor(pool, denominator, item);
    QuotientFits(pool, item.value, denominator);
    if floor.allocation > U128_MAX { assert false; }
  }

  /** The quotients and remainders, with the 256-bit product and the 128-bit quotient checked. */
  method Quotients(pool: U128, denominator: U128, items: seq<Item>) returns (floors: seq<Share>)
    requires Weighted(denominator, items)
    requires forall i :: 0 <= i < |items| ==> items[i].value <= U128_MAX
    ensures floors == Floors(pool, denominator, items)
  {
    floors := [];
    for i := 0 to |items|
      invariant |floors| == i
      invariant forall j :: 0 <= j < i ==> floors[j] == Floor(pool, denominator, items[j])
    {
      ValueWithinSum(items, i);
      var floor := Divide(pool, denominator, items[i]);
      floors := floors + [floor];
    }
  }

  /** The `try_fold` over the quotients. */
  method AddQuotients(pool: U128, denominator: U128, items: seq<Item>, floors: seq<Share>) returns (sum: nat)
    requires Weighted(denominator, items) && floors == Floors(pool, denominator, items)
    ensures sum == Sum(Allocations(floors)) <= pool
  {
    sum := 0;
    for i := 0 to |floors|
      invariant sum == Sum(Allocations(floors)[..i])
    {
      AllocatedWithinPool(pool, denominator, items, i);
      assert Allocations(floors)[..i + 1][..i] == Allocations(floors)[..i];
      if sum + floors[i].allocation > U128_MAX { assert false; }
      sum := sum + floors[i].allocation;
    }
    assert Allocations(floors)[..|floors|] == Allocations(floors);
    ResidualInRange(pool, denominator, items);
  }

  /** One extra unit to each of the first places of the residual order. */
  method HandOut(pool: U128, denominator: U128, items: seq<Item>, floors: seq<Share>, residual: nat)
    returns (shares: seq<Share>)
    requires Weighted(denominator, items) && floors == Floors(pool, denominator, items)
    requires residual == Residual(pool, floors) <= |items|
    ensures shares == Apportioned(pool, denominator, items)
  {
    shares := floors;
    var order := Order(floors);
    OrderProperties(floors);
    for p := 0 to residual
      invariant |shares| == |floors|
      invariant shares == AwardFirst(floors, order, p)
    {
      var index := order[p].index;
      AwardBelowPool(pool, denominator, items, p);
      if shares[index].allocation + 1 > U128_MAX { assert false; }
      shares := shares[index := Award(shares[index])];
    }
  }

  /** `apportion`: every overflow and residual check after admission is dead code. */
  method Apportion(pool: U128, denominator: U128, items: seq<Item>) returns (r: Result<seq<Share>>)
    requires forall i :: 0 <= i < |items| ==> items[i].value <= U128_MAX
    ensures Admission(denominator, items).Err? ==> r == Err(Admission(denominator, items).error)
    ensures Admission(denominator, items).Ok? ==>
      Weighted(denominator, items) && r == Ok(Apportionment(pool, denominator, items))
  {
    if denominator == 0 || items == [] { return Err(InvalidHamiltonInputs); }
    var sum := AddValues(items);
    if sum.Err? { return Err(sum.error); }
    if sum.value != denominator { return Err(InvalidHamiltonInputs); }
    CheckedSumMeaning(items);
    var apportioned := Quotients(pool, denominator, items);
    var floored := AddQuotients(pool, denominator, items, apportioned);
    if pool < floored { assert false; }
    var residual := pool - floored;
    ResidualInRange(pool, denominator, items);
    if residual > |apportioned| { assert false; }
    apportioned := HandOut(pool, denominator, items, apportioned, residual);
    r := Ok(SortBy(KeyLe, apportioned));
  }
}
