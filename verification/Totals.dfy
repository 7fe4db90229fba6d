/** Sums over sequences and finite maps, and the tally a loop builds with
    `*totals.entry(key).or_default() += amount`. */
module Totals {
  import opened Ordering

  // ---- sums of sequences -------------------------------------------------

  function Sum(s: seq<int>): int
  {
    if s == [] then 0 else Sum(s[..|s| - 1]) + s[|s| - 1]
  }

  lemma SumSnoc(s: seq<int>, x: int)
    ensures Sum(s + [x]) == Sum(s) + x
  {
    assert (s + [x])[..|s|] == s;
  }

  lemma SumPrefix(s: seq<int>, n: nat)
    requires 0 < n <= |s|
    ensures Sum(s[..n]) == Sum(s[..n - 1]) + s[n - 1]
  {
    assert s[..n][..n - 1] == s[..n - 1];
  }

  lemma {:induction false} SumConcat(a: seq<int>, b: seq<int>)
    ensures Sum(a + b) == Sum(a) + Sum(b)
  {
    if b == [] {
      assert a + b == a;
    } else {
      assert a + b == (a + b[..|b| - 1]) + [b[|b| - 1]];
      SumSnoc(a + b[..|b| - 1], b[|b| - 1]);
      SumConcat(a, b[..|b| - 1]);
    }
  }

  lemma {:induction false} SumMonotone(a: seq<int>, b: seq<int>)
    requires |a| == |b| && forall i :: 0 <= i < |a| ==> a[i] <= b[i]
    ensures Sum(a) <= Sum(b)
  {
    if a != [] { SumMonotone(a[..|a| - 1], b[..|b| - 1]); }
  }

  /** `c[i] = p * a[i] + q * b[i]` pointwise gives the same combination of sums. */
  lemma {:induction false} SumLinear(a: seq<int>, b: seq<int>, p: int, q: int, c: seq<int>)
    requires |a| == |b| == |c| && forall i :: 0 <= i < |a| ==> c[i] == p * a[i] + q * b[i]
    ensures Sum(c) == p * Sum(a) + q * Sum(b)
  {
    if a != [] {
      var n := |a| - 1;
      SumLinear(a[..n], b[..n], p, q, c[..n]);
      assert p * (Sum(a[..n]) + a[n]) == p * Sum(a[..n]) + p * a[n];
      assert q * (Sum(b[..n]) + b[n]) == q * Sum(b[..n]) + q * b[n];
    } else {
      assert p * 0 == 0 && q * 0 == 0;
    }
  }

  ghost predicate Dominated(a: seq<int>, b: seq<int>, c: seq<int>, p: int, q: int, r: int) {
    |a| == |b| == |c| && forall i :: 0 <= i < |a| ==> p * a[i] <= q * b[i] + r * c[i]
  }

  lemma Distributes(k: int, x: int, y: int)
    ensures k * (x + y) == k * x + k * y
  {
  }

  /** A termwise linear bound carries over to the sums. */
  lemma {:induction false} SumDominated(a: seq<int>, b: seq<int>, c: seq<int>, p: int, q: int, r: int)
    requires Dominated(a, b, c, p, q, r)
    ensures p * Sum(a) <= q * Sum(b) + r * Sum(c)
  {
    if a == [] {
      assert p * 0 == 0 && q * 0 == 0 && r * 0 == 0;
    } else {
      var n := |a| - 1;
      SumDominated(a[..n], b[..n], c[..n], p, q, r);
      Distributes(p, Sum(a[..n]), a[n]);
      Distributes(q, Sum(b[..n]), b[n]);
      Distributes(r, Sum(c[..n]), c[n]);
    }
  }

  lemma {:induction false} SumScale(a: seq<int>, k: int, c: seq<int>)
    requires |a| == |c| && forall i :: 0 <= i < |a| ==> c[i] == k * a[i]
    ensures Sum(c) == k * Sum(a)
  {
    SumLinear(a, a, k, 0, c);
  }

  lemma {:induction false} SumConstant(a: seq<int>, k: int)
    requires forall i :: 0 <= i < |a| ==> a[i] == k
    ensures Sum(a) == |a| * k
  {
    if a != [] { SumConstant(a[..|a| - 1], k); }
  }

  /** A sum of non-negative terms is at least each term. */
  lemma {:induction false} SumAtLeastTerm(s: seq<int>, i: nat)
    requires i < |s| && forall j :: 0 <= j < |s| ==> s[j] >= 0
    ensures Sum(s) >= s[i]
  {
    var n := |s| - 1;
    if i == n {
      SumMonotone(seq(n, _ => 0), s[..n]);
      SumConstant(seq(n, _ => 0), 0);
    } else {
      SumAtLeastTerm(s[..n], i);
    }
  }

  lemma {:induction false} SumRemove(s: seq<int>, i: nat)
    requires i < |s|
    ensures Sum(s) == s[i] + Sum(s[..i] + s[i + 1..])
  {
    assert s == (s[..i] + [s[i]]) + s[i + 1..];
    SumConcat(s[..i] + [s[i]], s[i + 1..]);
    SumSnoc(s[..i], s[i]);
    SumConcat(s[..i], s[i + 1..]);
  }

  lemma SumUpdate(s: seq<int>, i: nat, x: int)
    requires i < |s|
    ensures Sum(s[i := x]) == Sum(s) - s[i] + x
  {
    SumRemove(s, i);
    SumRemove(s[i := x], i);
    assert s[i := x][..i] == s[..i] && s[i := x][i + 1..] == s[i + 1..];
  }

  /** Equal sums that differ somewhere differ both ways. */
  lemma {:induction false} SumStrict(a: seq<int>, b: seq<int>, i: nat)
    requires |a| == |b| && i < |a| && a[i] < b[i] && forall j :: 0 <= j < |a| ==> a[j] <= b[j]
    ensures Sum(a) < Sum(b)
  {
    SumRemove(a, i);
    SumRemove(b, i);
    SumMonotone(a[..i] + a[i + 1..], b[..i] + b[i + 1..]);
  }

  lemma FindIn(s: seq<int>, x: int) returns (i: nat)
    requires x in multiset(s)
    ensures i < |s| && s[i] == x
  {
    i :| i < |s| && s[i] == x;
  }

  lemma SumWithout(s: seq<int>, i: nat)
    requires i < |s|
    ensures multiset(s[..i] + s[i + 1..]) == multiset(s) - multiset{s[i]} && |s[..i] + s[i + 1..]| == |s| - 1
    ensures Sum(s) == s[i] + Sum(s[..i] + s[i + 1..])
  {
    RemoveElement(s, i);
    SumRemove(s, i);
  }

  lemma {:induction false} SumPermuted(a: seq<int>, b: seq<int>)
    requires multiset(a) == multiset(b)
    ensures Sum(a) == Sum(b)
    decreases |a|
  {
    if a == [] {
      assert |b| == |multiset(b)| == 0;
    } else {
      assert a[0] in multiset(a);
      var i := FindIn(b, a[0]);
      SumWithout(b, i);
      SumWithout(a, 0);
      SumPermuted(a[..0] + a[1..], b[..i] + b[i + 1..]);
    }
  }

  /** A prefix of non-negative terms stays within the sum. */
  lemma PrefixWithin(s: seq<int>, n: nat)
    requires n <= |s| && forall i :: 0 <= i < |s| ==> s[i] >= 0
    ensures 0 <= Sum(s[..n]) <= Sum(s)
  {
    assert s == s[..n] + s[n..];
    SumConcat(s[..n], s[n..]);
    SumMonotone(seq(|s| - n, _ => 0), s[n..]);
    SumConstant(seq(|s| - n, _ => 0), 0);
    SumMonotone(seq(n, _ => 0), s[..n]);
    SumConstant(seq(n, _ => 0), 0);
  }

  /** A running total. */
  method AddUp(values: seq<int>) returns (total: int)
    ensures total == Sum(values)
  {
    total := 0;
    for i := 0 to |values|
      invariant total == Sum(values[..i])
    {
      SumPrefix(values, i + 1);
      total := total + values[i];
    }
    assert values[..|values|] == values;
  }

  // ---- sums of matrices --------------------------------------------------

  ghost predicate Rectangular(rows: seq<seq<int>>, width: nat) { forall i :: 0 <= i < |rows| ==> |rows[i]| == width }

  function RowSums(rows: seq<seq<int>>): seq<int> {
    seq(|rows|, i requires 0 <= i < |rows| => Sum(rows[i]))
  }

  ghost function Column(rows: seq<seq<int>>, width: nat, j: nat): seq<int>
    requires Rectangular(rows, width) && j < width
  {
    seq(|rows|, i requires 0 <= i < |rows| => rows[i][j])
  }

  ghost function ColumnSums(rows: seq<seq<int>>, width: nat): seq<int>
    requires Rectangular(rows, width)
  {
    seq(width, j requires 0 <= j < width => Sum(Column(rows, width, j)))
  }

  /** Adding up by rows or by columns is the same. */
  lemma {:induction false} SumSwap(rows: seq<seq<int>>, width: nat)
    requires Rectangular(rows, width)
    ensures Sum(RowSums(rows)) == Sum(ColumnSums(rows, width))
  {
    if rows == [] {
      SumConstant(ColumnSums(rows, width), 0);
    } else {
      var n := |rows| - 1;
      SumSwap(rows[..n], width);
      assert RowSums(rows)[..n] == RowSums(rows[..n]);
      forall j | 0 <= j < width
        ensures ColumnSums(rows, width)[j] == 1 * ColumnSums(rows[..n], width)[j] + 1 * rows[n][j]
      {
        assert Column(rows, width, j)[..n] == Column(rows[..n], width, j);
      }
      SumLinear(ColumnSums(rows[..n], width), rows[n], 1, 1, ColumnSums(rows, width));
    }
  }

  // ---- totals of maps ----------------------------------------------------

  ghost function Total<K>(m: map<K, int>): int
    decreases |m|
  {
    if m == map[] then 0 else
      var k :| k in m;
      assert |m - {k}| < |m| by { SmallerMap(m, k); }
      m[k] + Total(m - {k})
  }

  lemma SmallerMap<K, V>(m: map<K, V>, k: K)
    requires k in m
    ensures |m - {k}| == |m| - 1
  {
    assert (m - {k}).Keys == m.Keys - {k};
    assert |(m - {k}).Keys| == |m.Keys| - 1;
  }

  /** The order in which a map is added up does not matter. */
  lemma {:induction false} TotalRemove<K>(m: map<K, int>, k: K)
    requires k in m
    ensures Total(m) == m[k] + Total(m - {k})
    decreases |m|
  {
    var j :| j in m && Total(m) == m[j] + Total(m - {j});
    if j != k {
      SmallerMap(m, j);
      SmallerMap(m, k);
      TotalRemove(m - {j}, k);
      TotalRemove(m - {k}, j);
      assert m - {j} - {k} == m - {k} - {j};
    }
  }

  function Get<K>(m: map<K, int>, k: K): int {
    if k in m then m[k] else 0
  }

  lemma TotalUpdate<K>(m: map<K, int>, k: K, v: int)
    ensures Total(m[k := v]) == Total(m) - Get(m, k) + v
  {
    TotalRemove(m[k := v], k);
    assert m[k := v] - {k} == m - {k};
    if k in m { TotalRemove(m, k); } else { assert m - {k} == m; }
  }

  lemma {:induction false} TotalMonotone<K>(a: map<K, int>, b: map<K, int>)
    requires a.Keys == b.Keys && forall k :: k in a ==> a[k] <= b[k]
    ensures Total(a) <= Total(b)
    decreases |a|
  {
    if a != map[] {
      var k :| k in a;
      TotalRemove(a, k);
      TotalRemove(b, k);
      SmallerMap(a, k);
      TotalMonotone(a - {k}, b - {k});
    } else {
      assert b.Keys == {};
      assert b == map[];
    }
  }

  lemma {:induction false} TotalAdd<K>(a: map<K, int>, b: map<K, int>, c: map<K, int>)
    requires a.Keys == b.Keys == c.Keys && forall k :: k in a ==> c[k] == a[k] + b[k]
    ensures Total(c) == Total(a) + Total(b)
    decreases |a|
  {
    if a != map[] {
      var k :| k in a;
      TotalRemove(a, k);
      TotalRemove(b, k);
      TotalRemove(c, k);
      SmallerMap(a, k);
      TotalAdd(a - {k}, b - {k}, c - {k});
    } else {
      assert b == map[] && c == map[];
    }
  }

  lemma {:induction false} TotalZero<K>(m: map<K, int>)
    requires forall k :: k in m ==> m[k] == 0
    ensures Total(m) == 0
    decreases |m|
  {
    if m != map[] {
      var k :| k in m;
      TotalRemove(m, k);
      SmallerMap(m, k);
      TotalZero(m - {k});
    }
  }

  /** Entries that hold zero do not count. */
  lemma {:induction false} TotalPadded<K>(m: map<K, int>, wider: map<K, int>)
    requires m.Keys <= wider.Keys
    requires forall k :: k in wider ==> wider[k] == Get(m, k)
    ensures Total(wider) == Total(m)
    decreases |m|
  {
    if m == map[] {
      TotalZero(wider);
    } else {
      var k :| k in m;
      TotalRemove(m, k);
      TotalRemove(wider, k);
      SmallerMap(m, k);
      TotalPadded(m - {k}, wider - {k});
    }
  }

  /** The values of a map along a list of its keys. */
  function Along<K>(m: map<K, int>, keys: seq<K>): seq<int>
    requires forall i :: 0 <= i < |keys| ==> keys[i] in m
  {
    seq(|keys|, i requires 0 <= i < |keys| => m[keys[i]])
  }

  lemma OtherKeys<K>(m: map<K, int>, keys: seq<K>, rest: map<K, int>)
    requires keys != [] && (forall k :: k in m ==> k in keys) && rest == m - {keys[|keys| - 1]}
    ensures forall k :: k in rest ==> k in keys[..|keys| - 1]
  {
  }

  lemma AlongOthers<K>(m: map<K, int>, keys: seq<K>)
    requires keys != [] && forall i :: 0 <= i < |keys| ==> keys[i] in m
    requires forall i, j :: 0 <= i < j < |keys| ==> keys[i] != keys[j]
    ensures var n := |keys| - 1; Along(m, keys)[..n] == Along(m - {keys[n]}, keys[..n])
  {
  }

  /** Adding up along any enumeration of the keys gives the total. */
  lemma {:induction false} TotalAlong<K>(m: map<K, int>, keys: seq<K>)
    requires forall i :: 0 <= i < |keys| ==> keys[i] in m
    requires forall i, j :: 0 <= i < j < |keys| ==> keys[i] != keys[j]
    requires forall k :: k in m ==> k in keys
    ensures Total(m) == Sum(Along(m, keys))
  {
    if keys == [] {
      assert m == map[];
    } else {
      var n := |keys| - 1;
      var rest := m - {keys[n]};
      OtherKeys(m, keys, rest);
      TotalAlong(rest, keys[..n]);
      TotalRemove(m, keys[n]);
      AlongOthers(m, keys);
    }
  }

  /** Adding up in ascending key order, as an ordered map is iterated. */
  lemma TotalAscending(m: map<nat, int>, keys: seq<nat>)
    requires keys == AscendingNats(m.Keys)
    ensures Total(m) == Sum(Along(m, keys))
  {
    AscendingNatsMembers(m.Keys);
    TotalAlong(m, keys);
  }

  method AddTotal(m: map<nat, int>) returns (total: int)
    ensures total == Total(m)
  {
    var keys := AscendingNats(m.Keys);
    TotalAscending(m, keys);
    total := AddUp(Along(m, keys));
  }

  ghost predicate NonNegative<K>(m: map<K, int>) { forall k :: k in m ==> m[k] >= 0 }

  // ---- tallies -----------------------------------------------------------

  datatype Posting<K> = Posting(key: K, amount: int)

  /** `*totals.entry(key).or_default() += amount`. */
  function Post<K>(totals: map<K, int>, p: Posting<K>): map<K, int>
  {
    totals[p.key := Get(totals, p.key) + p.amount]
  }

  function Tally<K>(ps: seq<Posting<K>>): map<K, int>
  {
    if ps == [] then map[] else Post(Tally(ps[..|ps| - 1]), ps[|ps| - 1])
  }

  lemma TallySnoc<K>(ps: seq<Posting<K>>, p: Posting<K>)
    ensures Tally(ps + [p]) == Post(Tally(ps), p)
  {
    assert (ps + [p])[..|ps|] == ps;
  }

  function Amounts<K>(ps: seq<Posting<K>>): (r: seq<int>)
  {
    seq(|ps|, i requires 0 <= i < |ps| => ps[i].amount)
  }

  /** The part of the postings that goes to `key`, zero elsewhere. */
  function AmountsAt<K(==)>(ps: seq<Posting<K>>, key: K): (r: seq<int>)
  {
    seq(|ps|, i requires 0 <= i < |ps| => if ps[i].key == key then ps[i].amount else 0)
  }

  function AmountAt<K(==)>(ps: seq<Posting<K>>, key: K): int
  {
    Sum(AmountsAt(ps, key))
  }

  lemma {:induction false} AmountAtConcat<K>(a: seq<Posting<K>>, b: seq<Posting<K>>, key: K)
    ensures AmountAt(a + b, key) == AmountAt(a, key) + AmountAt(b, key)
  {
    assert AmountsAt(a + b, key) == AmountsAt(a, key) + AmountsAt(b, key);
    SumConcat(AmountsAt(a, key), AmountsAt(b, key));
  }

  /** A tally holds, at every key, the sum of what was posted there. */
  lemma {:induction false} TallyAt<K>(ps: seq<Posting<K>>, key: K)
    ensures Get(Tally(ps), key) == AmountAt(ps, key)
    ensures key in Tally(ps) <==> exists i :: 0 <= i < |ps| && ps[i].key == key
  {
    if ps != [] {
      var n := |ps| - 1;
      TallyAt(ps[..n], key);
      assert AmountsAt(ps, key)[..n] == AmountsAt(ps[..n], key);
      if key in Tally(ps[..n]) {
        var i :| 0 <= i < n && ps[..n][i].key == key;
        assert ps[i].key == key;
      }
      if i :| 0 <= i < |ps| && ps[i].key == key && i < n {
        assert ps[..n][i].key == key;
      }
    }
  }

  /** Nothing is lost or minted by tallying. */
  lemma {:induction false} TallyTotal<K>(ps: seq<Posting<K>>)
    ensures Total(Tally(ps)) == Posted(ps)
  {
    if ps != [] {
      var n := |ps| - 1;
      TallyTotal(ps[..n]);
      TotalUpdate(Tally(ps[..n]), ps[n].key, Get(Tally(ps[..n]), ps[n].key) + ps[n].amount);
      assert Amounts(ps)[..n] == Amounts(ps[..n]);
    }
  }

  lemma {:induction false} AmountAtAbsent<K>(ps: seq<Posting<K>>, key: K)
    requires forall i :: 0 <= i < |ps| ==> ps[i].key != key
    ensures AmountAt(ps, key) == 0
  {
    SumConstant(AmountsAt(ps, key), 0);
  }

  /** Among postings to distinct keys, each key holds its own amount. */
  lemma {:induction false} AmountAtOnly<K>(ps: seq<Posting<K>>, j: nat)
    requires j < |ps| && forall a, b :: 0 <= a < b < |ps| ==> ps[a].key != ps[b].key
    ensures AmountAt(ps, ps[j].key) == ps[j].amount
  {
    var amounts := AmountsAt(ps, ps[j].key);
    SumRemove(amounts, j);
    SumConstant(amounts[..j] + amounts[j + 1..], 0);
  }

  lemma {:induction false} AmountAtNonNegative<K>(ps: seq<Posting<K>>, key: K)
    requires forall i :: 0 <= i < |ps| ==> ps[i].amount >= 0
    ensures AmountAt(ps, key) >= 0
  {
    SumMonotone(seq(|ps|, _ => 0), AmountsAt(ps, key));
    SumConstant(seq(|ps|, _ => 0), 0);
  }

  /** Everything posted. */
  function Posted<K>(ps: seq<Posting<K>>): int { Sum(Amounts(ps)) }

  lemma PostedConcat<K>(a: seq<Posting<K>>, b: seq<Posting<K>>)
    ensures Posted(a + b) == Posted(a) + Posted(b)
  {
    assert Amounts(a + b) == Amounts(a) + Amounts(b);
    SumConcat(Amounts(a), Amounts(b));
  }

  lemma PostedSingle<K>(p: Posting<K>)
    ensures Posted([p]) == p.amount
  {
    assert Amounts([p]) == [] + [p.amount];
    SumSnoc([], p.amount);
  }

  lemma PostedNonNegative<K>(ps: seq<Posting<K>>)
    requires forall i :: 0 <= i < |ps| ==> ps[i].amount >= 0
    ensures Posted(ps) >= 0
  {
    SumMonotone(seq(|ps|, _ => 0), Amounts(ps));
    SumConstant(seq(|ps|, _ => 0), 0);
  }

  lemma {:induction false} TallyPositive<K>(ps: seq<Posting<K>>)
    requires forall i :: 0 <= i < |ps| ==> ps[i].amount > 0
    ensures forall k :: k in Tally(ps) ==> Tally(ps)[k] > 0
  {
    if ps != [] { TallyPositive(ps[..|ps| - 1]); }
  }

  /** A total of non-negative amounts is at least each of them. */
  lemma TotalAtLeast<K>(m: map<K, int>, k: K)
    requires k in m && forall j :: j in m ==> m[j] >= 0
    ensures Total(m) >= m[k]
  {
    TotalRemove(m, k);
    TotalNonNegative(m - {k});
  }

  lemma TotalNonNegative<K>(m: map<K, int>)
    requires forall j :: j in m ==> m[j] >= 0
    ensures Total(m) >= 0
  {
    var zero := map k | k in m :: 0;
    TotalZero(zero);
    TotalMonotone(zero, m);
  }

  /** No balance exceeds what was posted. */
  lemma BalanceWithinPosted<K>(ps: seq<Posting<K>>, k: K)
    requires forall i :: 0 <= i < |ps| ==> ps[i].amount > 0
    requires k in Tally(ps)
    ensures Tally(ps)[k] <= Posted(ps)
  {
    TallyPositive(ps);
    TallyTotal(ps);
    TotalAtLeast(Tally(ps), k);
  }

  /** A running balance never passes what is posted in all. */
  lemma RunningBalance<K>(ps: seq<Posting<K>>, n: nat)
    requires n < |ps| && forall i :: 0 <= i < |ps| ==> ps[i].amount > 0
    ensures Get(Tally(ps[..n]), ps[n].key) + ps[n].amount <= Posted(ps)
  {
    var upTo, rest := ps[..n + 1], ps[n + 1..];
    assert ps == upTo + rest;
    PostedConcat(upTo, rest);
    PostedNonNegative(rest);
    assert upTo[..n] == ps[..n];
    BalanceWithinPosted(upTo, ps[n].key);
  }

  ghost predicate NonNegativeAmounts<K>(ps: seq<Posting<K>>) { forall i :: 0 <= i < |ps| ==> ps[i].amount >= 0 }

  // ---- L1 distance -------------------------------------------------------

  function Abs(x: int): nat { if x < 0 then -x else x }

  ghost function Distances<K>(a: map<K, int>, b: map<K, int>): map<K, int>
  {
    map k | k in a.Keys + b.Keys :: Abs(Get(a, k) - Get(b, k))
  }

  ghost function L1<K>(a: map<K, int>, b: map<K, int>): int
  {
    Total(Distances(a, b))
  }

  lemma AmountAtSnoc<K>(ps: seq<Posting<K>>, p: Posting<K>, key: K)
    ensures AmountAt(ps + [p], key) == AmountAt(ps, key) + (if p.key == key then p.amount else 0)
  {
    assert AmountsAt(ps + [p], key)[..|ps|] == AmountsAt(ps, key);
  }

  ghost function AmountsOver<K>(ps: seq<Posting<K>>, keys: set<K>): map<K, int>
  {
    map k | k in keys :: AmountAt(ps, k)
  }

  lemma TotalStep<K>(m: map<K, int>, k: K, extra: int, wider: map<K, int>)
    requires k in m && wider == m[k := m[k] + extra]
    ensures Total(wider) == Total(m) + extra
  {
    TotalUpdate(m, k, m[k] + extra);
  }

  lemma AmountsOverSnoc<K>(front: seq<Posting<K>>, p: Posting<K>, keys: set<K>)
    requires p.key in keys
    ensures AmountsOver(front + [p], keys)
      == AmountsOver(front, keys)[p.key := AmountsOver(front, keys)[p.key] + p.amount]
  {
    forall k | k in keys
      ensures AmountAt(front + [p], k) == AmountAt(front, k) + (if p.key == k then p.amount else 0)
    {
      AmountAtSnoc(front, p, k);
    }
  }

  lemma AmountsOverStep<K>(front: seq<Posting<K>>, p: Posting<K>, keys: set<K>)
    requires p.key in keys
    ensures Total(AmountsOver(front + [p], keys)) == Total(AmountsOver(front, keys)) + p.amount
  {
    AmountsOverSnoc(front, p, keys);
    TotalStep(AmountsOver(front, keys), p.key, p.amount, AmountsOver(front + [p], keys));
  }

  /** Spreading postings over a key set that covers them adds up to the postings. */
  lemma {:induction false} AmountsOverTotal<K>(ps: seq<Posting<K>>, keys: set<K>)
    requires forall i :: 0 <= i < |ps| ==> ps[i].key in keys
    ensures Total(AmountsOver(ps, keys)) == Posted(ps)
  {
    if ps == [] {
      TotalZero(AmountsOver(ps, keys));
    } else {
      var n := |ps| - 1;
      var front, p := ps[..n], ps[n];
      AmountsOverTotal(front, keys);
      AmountsOverStep(front, p, keys);
      PostedConcat(front, [p]);
      PostedSingle(p);
      assert front + [p] == ps;
    }
  }

  /** The tallies differ only by what `x` posts in one and `y` in the other. */
  ghost predicate DifferBy<K(!new)>(s: map<K, int>, x: seq<Posting<K>>, t: map<K, int>, y: seq<Posting<K>>) {
    forall k :: Get(s, k) - AmountAt(x, k) == Get(t, k) - AmountAt(y, k)
  }

  ghost predicate PostsWithin<K>(x: seq<Posting<K>>, keys: set<K>) {
    forall i :: 0 <= i < |x| ==> x[i].key in keys && x[i].amount >= 0
  }

  /** Such tallies are apart, in L1, by at most what `x` and `y` post together. */
  lemma TallyMoves<K(!new)>(s: map<K, int>, x: seq<Posting<K>>, t: map<K, int>, y: seq<Posting<K>>)
    requires DifferBy(s, x, t, y) && PostsWithin(x, s.Keys + t.Keys) && PostsWithin(y, s.Keys + t.Keys)
    ensures L1(s, t) <= Posted(x) + Posted(y)
  {
    var keys := s.Keys + t.Keys;
    var mx, my := AmountsOver(x, keys), AmountsOver(y, keys);
    var both := map k | k in keys :: mx[k] + my[k];
    AmountsOverTotal(x, keys);
    AmountsOverTotal(y, keys);
    TotalAdd(mx, my, both);
    forall k | k in keys ensures Distances(s, t)[k] <= both[k] {
      AmountAtNonNegative(x, k);
      AmountAtNonNegative(y, k);
    }
    TotalMonotone(Distances(s, t), both);
  }

  lemma StretchKeys<K>(a: seq<Posting<K>>, x: seq<Posting<K>>, b: seq<Posting<K>>)
    requires forall i :: 0 <= i < |x| ==> x[i].amount >= 0
    ensures PostsWithin(x, Tally(a + x + b).Keys)
  {
    forall i | 0 <= i < |x| ensures x[i].key in Tally(a + x + b).Keys {
      TallyAt(a + x + b, x[i].key);
      assert (a + x + b)[|a| + i] == x[i];
    }
  }

  lemma StretchAmount<K>(a: seq<Posting<K>>, x: seq<Posting<K>>, b: seq<Posting<K>>, k: K)
    ensures Get(Tally(a + x + b), k) - AmountAt(x, k) == AmountAt(a, k) + AmountAt(b, k)
  {
    TallyAt(a + x + b, k);
    AmountAtConcat(a + x, b, k);
    AmountAtConcat(a, x, k);
  }

  /** Replacing one stretch of non-negative postings moves the tally, in L1, by at
      most what the two stretches hold together. */
  lemma {:induction false} ReplacedPostings<K(!new)>(a: seq<Posting<K>>, x: seq<Posting<K>>, y: seq<Posting<K>>,
                                                     b: seq<Posting<K>>)
    requires forall i :: 0 <= i < |x| ==> x[i].amount >= 0
    requires forall i :: 0 <= i < |y| ==> y[i].amount >= 0
    ensures L1(Tally(a + x + b), Tally(a + y + b)) <= Posted(x) + Posted(y)
  {
    StretchKeys(a, x, b);
    StretchKeys(a, y, b);
    forall k ensures Get(Tally(a + x + b), k) - AmountAt(x, k) == Get(Tally(a + y + b), k) - AmountAt(y, k) {
      StretchAmount(a, x, b, k);
      StretchAmount(a, y, b, k);
    }
    TallyMoves(Tally(a + x + b), x, Tally(a + y + b), y);
  }
}
