/** The alternative of research/composition/simulate.ts: one apportionment over the exact rational
    account masses, and how far the two-stage blend can be from it. */
module SingleStage {
  import opened Totals
  import opened Ordering
  import opened FixedPoint
  import opened Hamilton
  import opened Composition
  import opened CompositionBounds

  /** The product of the first `n` source totals. */
  function TotalsProduct(vs: seq<ValidatedSource>, n: nat): nat
    requires n <= |vs|
  {
    if n == 0 then 1 else TotalsProduct(vs, n - 1) * vs[n - 1].totalValue
  }

  function ProductOfTotals(vs: seq<ValidatedSource>): nat { TotalsProduct(vs, |vs|) }

  function OtherTotals(vs: seq<ValidatedSource>, i: nat): nat
    requires i < |vs| && vs[i].totalValue > 0
  {
    ProductOfTotals(vs) / vs[i].totalValue
  }

  function Denominator(vs: seq<ValidatedSource>): nat { WEIGHT_SCALE * ProductOfTotals(vs) }

  lemma {:induction false} DividesProduct(vs: seq<ValidatedSource>, i: nat, n: nat) returns (k: nat)
    requires i < n <= |vs|
    ensures TotalsProduct(vs, n) == vs[i].totalValue * k
  {
    if i == n - 1 {
      k := TotalsProduct(vs, n - 1);
    } else {
      k := DividesProduct(vs, i, n - 1);
      assert vs[i].totalValue * k * vs[n - 1].totalValue == vs[i].totalValue * (k * vs[n - 1].totalValue);
      k := k * vs[n - 1].totalValue;
    }
  }

  lemma {:induction false} ProductPositive(vs: seq<ValidatedSource>, n: nat)
    requires Ready(vs) && n <= |vs|
    ensures TotalsProduct(vs, n) > 0
  {
    if n > 0 {
      ProductPositive(vs, n - 1);
      AtLeastOne(TotalsProduct(vs, n - 1), vs[n - 1].totalValue);
    }
  }

  /** The division by a source's own total is exact. */
  lemma OtherTotalsExact(vs: seq<ValidatedSource>, i: nat)
    requires Ready(vs) && i < |vs|
    ensures ProductOfTotals(vs) == vs[i].totalValue * OtherTotals(vs, i) && OtherTotals(vs, i) > 0
  {
    var k := DividesProduct(vs, i, |vs|);
    var t := vs[i].totalValue;
    Multiple(t, k);
    SameProduct(t, t * k / t, k);
    ProductPositive(vs, |vs|);
  }

  /** The numerators one source adds: `weight * value * otherTotals` for each entry. */
  function NumeratorPart(vs: seq<ValidatedSource>, i: nat): seq<Posting<nat>>
    requires i < |vs| && vs[i].totalValue > 0
  {
    var v := vs[i];
    seq(|v.entries|, j requires 0 <= j < |v.entries| =>
      Posting(v.entries[j].key, v.weight * v.entries[j].value * OtherTotals(vs, i)))
  }

  function NumeratorPostings(vs: seq<ValidatedSource>, n: nat): seq<Posting<nat>>
    requires Ready(vs) && n <= |vs|
  {
    if n == 0 then [] else NumeratorPostings(vs, n - 1) + NumeratorPart(vs, n - 1)
  }

  function Numerators(vs: seq<ValidatedSource>): map<nat, int>
    requires Ready(vs)
  {
    Tally(NumeratorPostings(vs, |vs|))
  }

  lemma NumeratorPartTotal(vs: seq<ValidatedSource>, i: nat)
    requires Ready(vs) && i < |vs|
    ensures Posted(NumeratorPart(vs, i)) == vs[i].weight * ProductOfTotals(vs)
  {
    var v, rest := vs[i], OtherTotals(vs, i);
    OtherTotalsExact(vs, i);
    var part := NumeratorPart(vs, i);
    forall j | 0 <= j < |part| ensures Amounts(part)[j] == v.weight * rest * Values(v.entries)[j] {
      assert v.weight * v.entries[j].value * rest == v.weight * rest * v.entries[j].value;
    }
    SumScale(Values(v.entries), v.weight * rest, Amounts(part));
    assert v.weight * rest * v.totalValue == v.weight * (v.totalValue * rest);
  }

  lemma Distribute(a: int, b: int, k: int)
    ensures (a + b) * k == a * k + b * k
  {
  }

  lemma {:induction false} NumeratorsPosted(vs: seq<ValidatedSource>, n: nat)
    requires Ready(vs) && n <= |vs|
    ensures Posted(NumeratorPostings(vs, n)) == Sum(Values(WeightItems(vs))[..n]) * ProductOfTotals(vs)
  {
    if n > 0 {
      NumeratorsPosted(vs, n - 1);
      var weights, product := Values(WeightItems(vs)), ProductOfTotals(vs);
      var before, part := NumeratorPostings(vs, n - 1), NumeratorPart(vs, n - 1);
      assert Posted(before + part) == Posted(before) + Posted(part) by { PostedConcat(before, part); }
      assert Posted(part) == weights[n - 1] * product by { NumeratorPartTotal(vs, n - 1); }
      assert Sum(weights[..n]) * product == Sum(weights[..n - 1]) * product + weights[n - 1] * product by {
        SumPrefix(weights, n);
        Distribute(Sum(weights[..n - 1]), weights[n - 1], product);
      }
    }
  }

  /** The ideal numerators add up exactly to the ideal denominator. */
  lemma NumeratorsTotal(vs: seq<ValidatedSource>)
    requires Ready(vs)
    ensures Total(Numerators(vs)) == Denominator(vs) > 0
  {
    NumeratorsPosted(vs, |vs|);
    assert Values(WeightItems(vs))[..|vs|] == Values(WeightItems(vs));
    TallyTotal(NumeratorPostings(vs, |vs|));
    ProductPositive(vs, |vs|);
  }

  // ---- the single apportionment ------------------------------------------

  lemma NumeratorPartNonNegative(vs: seq<ValidatedSource>, i: nat)
    requires Ready(vs) && i < |vs|
    ensures NonNegativeAmounts(NumeratorPart(vs, i))
  {
  }

  lemma {:induction false} NumeratorsNonNegative(vs: seq<ValidatedSource>, n: nat)
    requires Ready(vs) && n <= |vs|
    ensures NonNegativeAmounts(NumeratorPostings(vs, n))
  {
    if n > 0 {
      NumeratorsNonNegative(vs, n - 1);
      NumeratorPartNonNegative(vs, n - 1);
    }
  }

  lemma NumeratorNat(vs: seq<ValidatedSource>, account: nat)
    requires Ready(vs)
    ensures Get(Numerators(vs), account) >= 0
  {
    NumeratorsNonNegative(vs, |vs|);
    TallyAt(NumeratorPostings(vs, |vs|), account);
    AmountAtNonNegative(NumeratorPostings(vs, |vs|), account);
  }

  function SingleStageItem(vs: seq<ValidatedSource>, account: nat): Item
    requires Ready(vs)
  {
    NumeratorNat(vs, account);
    Item(account, Get(Numerators(vs), account))
  }

  /** One item for each account, in account order. */
  function SingleStageItems(vs: seq<ValidatedSource>): seq<Item>
    requires Ready(vs)
  {
    var accounts := AscendingNats(Numerators(vs).Keys);
    seq(|accounts|, i requires 0 <= i < |accounts| => SingleStageItem(vs, accounts[i]))
  }

  lemma SingleStageWeighted(vs: seq<ValidatedSource>)
    requires Ready(vs)
    ensures Weighted(Denominator(vs), SingleStageItems(vs)) && AscendingKeys(SingleStageItems(vs))
  {
    var accounts := AscendingNats(Numerators(vs).Keys);
    NumeratorsTotal(vs);
    TotalAscending(Numerators(vs), accounts);
    assert Values(SingleStageItems(vs)) == Along(Numerators(vs), accounts);
  }

  /** `singleStageIdealHamilton`: by its order-independence the input may stand in account order. */
  function SingleStageShares(pool: nat, vs: seq<ValidatedSource>): (r: seq<Share>)
    requires Ready(vs)
    ensures |r| == |SingleStageItems(vs)|
  {
    SingleStageWeighted(vs);
    Apportioned(pool, Denominator(vs), SingleStageItems(vs))
  }

  // ---- the distance between the two --------------------------------------

  lemma NumeratorPartAt(vs: seq<ValidatedSource>, i: nat, account: nat)
    requires Ready(vs) && i < |vs|
    ensures AmountAt(NumeratorPart(vs, i), account) == vs[i].weight * ValueOf(vs[i], account) * OtherTotals(vs, i)
  {
    var v := vs[i];
    if Holds(v, account) {
      var j :| 0 <= j < |v.entries| && v.entries[j].key == account && v.entries[j].value == ValueOf(v, account);
      AmountAtOnly(NumeratorPart(vs, i), j);
    } else {
      AmountAtAbsent(NumeratorPart(vs, i), account);
      assert v.weight * ValueOf(v, account) * OtherTotals(vs, i) == 0;
    }
  }

  /** A common factor cancels from a quotient. */
  lemma CancelQuotient(a: int, b: int, k: int)
    requires b > 0 && k > 0
    ensures b * k > 0 && (a * k) as real / (b * k) as real == a as real / b as real
  {
    AtLeastOne(b, k);
    var x, y, z := a as real, b as real, k as real;
    assert (a * k) as real == x * z && (b * k) as real == y * z;
    assert x / y * (y * z) == x * z;
  }

  lemma Regroup(a: int, b: int, c: int, d: int)
    ensures a * (b * c * d) == a * b * c * d
  {
  }

  lemma NumeratorPartIdeal(pool: nat, vs: seq<ValidatedSource>, i: nat, account: nat)
    requires Ready(vs) && i < |vs|
    ensures Denominator(vs) > 0
    ensures (pool * AmountAt(NumeratorPart(vs, i), account)) as real / Denominator(vs) as real
      == IdealPart(pool, vs[i], account)
  {
    var v, rest := vs[i], OtherTotals(vs, i);
    OtherTotalsExact(vs, i);
    NumeratorPartAt(vs, i, account);
    Regroup(pool, v.weight, ValueOf(v, account), rest);
    assert Denominator(vs) == WEIGHT_SCALE * v.totalValue * rest;
    CancelQuotient(pool * v.weight * ValueOf(v, account), WEIGHT_SCALE * v.totalValue, rest);
  }

  lemma AddQuotients(pool: int, a: int, b: int, d: int)
    requires d > 0
    ensures (pool * (a + b)) as real / d as real == (pool * a) as real / d as real + (pool * b) as real / d as real
  {
    var x, y, z := (pool * a) as real, (pool * b) as real, d as real;
    assert (pool * (a + b)) as real == x + y by { Distribute(a, b, pool); }
    assert (x + y) / z == x / z + y / z;
  }

  /** Over the common denominator the numerators are the exact ideal shares. */
  lemma {:induction false} NumeratorsIdeal(pool: nat, vs: seq<ValidatedSource>, n: nat, account: nat)
    requires Ready(vs) && n <= |vs|
    ensures Denominator(vs) > 0
    ensures (pool * AmountAt(NumeratorPostings(vs, n), account)) as real / Denominator(vs) as real
      == Ideal(pool, vs, n, account)
  {
    NumeratorsTotal(vs);
    if n == 0 {
      assert AmountsAt(NumeratorPostings(vs, 0), account) == [];
    } else {
      NumeratorsIdeal(pool, vs, n - 1, account);
      NumeratorPartIdeal(pool, vs, n - 1, account);
      var a, b := AmountAt(NumeratorPostings(vs, n - 1), account), AmountAt(NumeratorPart(vs, n - 1), account);
      AmountAtConcat(NumeratorPostings(vs, n - 1), NumeratorPart(vs, n - 1), account);
      AddQuotients(pool, a, b, Denominator(vs));
    }
  }

  lemma SingleStageNearIdeal(pool: nat, vs: seq<ValidatedSource>, j: nat)
    requires Ready(vs) && j < |SingleStageItems(vs)|
    ensures -1.0 < SingleStageShares(pool, vs)[j].allocation as real - Ideal(pool, vs, |vs|,
      SingleStageItems(vs)[j].key) < 1.0
  {
    var items, d := SingleStageItems(vs), Denominator(vs);
    SingleStageWeighted(vs);
    ApportionedIsLargestRemainder(pool, d, items);
    QuotaRule(pool, d, items, SingleStageShares(pool, vs), j);
    NearQuotient(d, SingleStageShares(pool, vs)[j].allocation, pool * items[j].value, 1);
    NumeratorsIdeal(pool, vs, |vs|, items[j].key);
    TallyAt(NumeratorPostings(vs, |vs|), items[j].key);
  }

  lemma {:induction false} HolderIsPosted(vs: seq<ValidatedSource>, n: nat, account: nat)
    requires Ready(vs) && n <= |vs|
    ensures Holders(vs, n, account) > 0 <==> account in Tally(NumeratorPostings(vs, n))
  {
    if n > 0 {
      HolderIsPosted(vs, n - 1, account);
      PostedWhere(NumeratorPostings(vs, n - 1), NumeratorPart(vs, n - 1), account);
      PartHolds(vs, n - 1, account);
    }
  }

  lemma PostedWhere(a: seq<Posting<nat>>, b: seq<Posting<nat>>, account: nat)
    ensures account in Tally(a + b) <==> account in Tally(a) || exists j :: 0 <= j < |b| && b[j].key == account
  {
    TallyAt(a, account);
    TallyAt(a + b, account);
    if j :| 0 <= j < |a| && a[j].key == account { assert (a + b)[j].key == account; }
    if j :| 0 <= j < |b| && b[j].key == account { assert (a + b)[|a| + j].key == account; }
    if j :| 0 <= j < |a + b| && (a + b)[j].key == account {
      assert j < |a| ==> a[j].key == account;
      assert j >= |a| ==> b[j - |a|].key == account;
    }
  }

  lemma PartHolds(vs: seq<ValidatedSource>, i: nat, account: nat)
    requires Ready(vs) && i < |vs|
    ensures Holds(vs[i], account) <==>
      exists j :: 0 <= j < |NumeratorPart(vs, i)| && NumeratorPart(vs, i)[j].key == account
  {
    if j :| 0 <= j < |vs[i].entries| && vs[i].entries[j].key == account {
      assert NumeratorPart(vs, i)[j].key == account;
    }
  }

  /** The accounts of the single-stage form are exactly those that some source holds. */
  lemma ItemsAreHeld(vs: seq<ValidatedSource>, account: nat)
    requires Ready(vs)
    ensures Holders(vs, |vs|, account) > 0
      <==> exists j :: 0 <= j < |SingleStageItems(vs)| && SingleStageItems(vs)[j].key == account
  {
    var accounts := AscendingNats(Numerators(vs).Keys);
    HolderIsPosted(vs, |vs|, account);
    AscendingNatsMembers(Numerators(vs).Keys);
    if account in accounts {
      var j :| 0 <= j < |accounts| && accounts[j] == account;
      assert SingleStageItems(vs)[j].key == account;
    }
  }

  /** What the single-stage form gives an account. */
  ghost function SingleStageOf(pool: nat, vs: seq<ValidatedSource>, account: nat): nat
    requires Ready(vs)
  {
    if exists j :: 0 <= j < |SingleStageItems(vs)| && SingleStageItems(vs)[j].key == account then
      var j :| 0 <= j < |SingleStageItems(vs)| && SingleStageItems(vs)[j].key == account;
      SingleStageShares(pool, vs)[j].allocation
    else 0
  }

  /** For every account: if `k > 0` sources hold it, the two results differ by less than `2k + 1`
      points; if none does, both are nothing. */
  lemma TwoStageNearSingleStage(pool: nat, vs: seq<ValidatedSource>, account: nat)
    requires Ready(vs)
    ensures var k := Holders(vs, |vs|, account);
      if k == 0 then Get(Combined(pool, vs), account) == SingleStageOf(pool, vs, account) == 0
      else Abs(Get(Combined(pool, vs), account) - SingleStageOf(pool, vs, account)) < 2 * k + 1
  {
    TwoStageError(pool, vs, account);
    ItemsAreHeld(vs, account);
    if Holders(vs, |vs|, account) > 0 {
      var j :| 0 <= j < |SingleStageItems(vs)| && SingleStageItems(vs)[j].key == account
        && SingleStageOf(pool, vs, account) == SingleStageShares(pool, vs)[j].allocation;
      SingleStageNearIdeal(pool, vs, j);
    }
  }
}
