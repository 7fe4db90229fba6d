/** Postings made by a loop, each element making a few, and how they split over groups. */
module Grouping {
  import opened Totals
  import opened Ordering

  /** The postings of every element, in order. */
  function Spread<T, K>(f: T -> seq<Posting<K>>, s: seq<T>): seq<Posting<K>>
  {
    if s == [] then [] else Spread(f, s[..|s| - 1]) + f(s[|s| - 1])
  }

  lemma SpreadSnoc<T, K>(f: T -> seq<Posting<K>>, s: seq<T>, i: nat)
    requires i < |s|
    ensures Spread(f, s[..i + 1]) == Spread(f, s[..i]) + f(s[i])
  {
    assert s[..i + 1][..i] == s[..i];
  }

  lemma {:induction false} SpreadConcat<T, K>(f: T -> seq<Posting<K>>, a: seq<T>, b: seq<T>)
    ensures Spread(f, a + b) == Spread(f, a) + Spread(f, b)
  {
    if b == [] {
      assert a + b == a;
    } else {
      var n := |b| - 1;
      assert (a + b)[..|a + b| - 1] == a + b[..n];
      SpreadConcat(f, a, b[..n]);
    }
  }

  lemma SpreadSingle<T, K>(f: T -> seq<Posting<K>>, x: T)
    ensures Spread(f, [x]) == f(x)
  {
    assert [x][..0] == [];
    assert Spread(f, [x][..0]) == [];
  }

  lemma SpreadCons<T, K>(f: T -> seq<Posting<K>>, s: seq<T>)
    requires s != []
    ensures Spread(f, s) == f(s[0]) + Spread(f, s[1..])
  {
    assert s == [s[0]] + s[1..];
    SpreadConcat(f, [s[0]], s[1..]);
    SpreadSingle(f, s[0]);
  }

  lemma {:induction false} SpreadAgree<T, K>(f: T -> seq<Posting<K>>, g: T -> seq<Posting<K>>, s: seq<T>)
    requires forall i :: 0 <= i < |s| ==> f(s[i]) == g(s[i])
    ensures Spread(f, s) == Spread(g, s)
  {
    if s != [] { SpreadAgree(f, g, s[..|s| - 1]); }
  }

  function AmountsFrom<T, K(==)>(f: T -> seq<Posting<K>>, s: seq<T>, key: K): seq<int>
  {
    seq(|s|, i requires 0 <= i < |s| => AmountAt(f(s[i]), key))
  }

  /** A key receives the sum of what the elements send it. */
  lemma {:induction false} SpreadAmount<T, K>(f: T -> seq<Posting<K>>, s: seq<T>, key: K)
    ensures AmountAt(Spread(f, s), key) == Sum(AmountsFrom(f, s, key))
  {
    if s == [] {
      assert AmountsAt<K>([], key) == [];
    } else {
      var n := |s| - 1;
      SpreadAmount(f, s[..n], key);
      AmountAtConcat(Spread(f, s[..n]), f(s[n]), key);
      assert AmountsFrom(f, s, key)[..n] == AmountsFrom(f, s[..n], key);
    }
  }

  function Not<T>(p: T -> bool): T -> bool { x => !p(x) }

  /** Amounts split over any partition of the elements. */
  lemma {:induction false} SpreadSplit<T, K>(f: T -> seq<Posting<K>>, p: T -> bool, s: seq<T>, key: K)
    ensures AmountAt(Spread(f, s), key)
      == AmountAt(Spread(f, Filter(p, s)), key) + AmountAt(Spread(f, Filter(Not(p), s)), key)
  {
    if s == [] {
      assert AmountsAt<K>([], key) == [];
    } else {
      SpreadSplit(f, p, s[1..], key);
      SpreadCons(f, s);
      AmountAtConcat(f(s[0]), Spread(f, s[1..]), key);
      SplitHead(f, p, s, key);
      SplitHead(f, Not(p), s, key);
    }
  }

  lemma SplitHead<T, K>(f: T -> seq<Posting<K>>, p: T -> bool, s: seq<T>, key: K)
    requires s != []
    ensures AmountAt(Spread(f, Filter(p, s)), key)
      == (if p(s[0]) then AmountAt(f(s[0]), key) else 0) + AmountAt(Spread(f, Filter(p, s[1..])), key)
  {
    if p(s[0]) {
      var rest := Filter(p, s[1..]);
      assert ([s[0]] + rest)[1..] == rest;
      SpreadCons(f, [s[0]] + rest);
      AmountAtConcat(f(s[0]), Spread(f, rest), key);
    } else {
      assert [] + Filter(p, s[1..]) == Filter(p, s[1..]);
    }
  }

  lemma {:induction false} PostedSplit<T, K>(f: T -> seq<Posting<K>>, p: T -> bool, s: seq<T>)
    ensures Posted(Spread(f, s)) == Posted(Spread(f, Filter(p, s))) + Posted(Spread(f, Filter(Not(p), s)))
  {
    if s == [] {
      assert Amounts<K>([]) == [];
    } else {
      PostedSplit(f, p, s[1..]);
      SpreadCons(f, s);
      PostedConcat(f(s[0]), Spread(f, s[1..]));
      PostedHead(f, p, s);
      PostedHead(f, Not(p), s);
    }
  }

  lemma PostedHead<T, K>(f: T -> seq<Posting<K>>, p: T -> bool, s: seq<T>)
    requires s != []
    ensures Posted(Spread(f, Filter(p, s)))
      == (if p(s[0]) then Posted(f(s[0])) else 0) + Posted(Spread(f, Filter(p, s[1..])))
  {
    if p(s[0]) {
      var rest := Filter(p, s[1..]);
      assert ([s[0]] + rest)[1..] == rest;
      SpreadCons(f, [s[0]] + rest);
      PostedConcat(f(s[0]), Spread(f, rest));
    } else {
      assert [] + Filter(p, s[1..]) == Filter(p, s[1..]);
    }
  }

  /** If each element posts at most its cap, all of them post at most the sum of the caps. */
  lemma {:induction false} SpreadBound<T, K>(f: T -> seq<Posting<K>>, s: seq<T>, caps: seq<int>)
    requires |caps| == |s| && forall i :: 0 <= i < |s| ==> Posted(f(s[i])) <= caps[i]
    ensures Posted(Spread(f, s)) <= Sum(caps)
  {
    if s == [] {
      assert Amounts<K>([]) == [];
    } else {
      var n := |s| - 1;
      SpreadBound(f, s[..n], caps[..n]);
      PostedConcat(Spread(f, s[..n]), f(s[n]));
    }
  }

  function InGroup<T>(group: T -> nat, g: nat): T -> bool { x => group(x) == g }

  ghost predicate Capped<T, K>(f: T -> seq<Posting<K>>, group: T -> nat, s: seq<T>, caps: map<nat, int>) {
    && (forall x :: x in s ==> group(x) in caps)
    && forall g :: g in caps ==> Posted(Spread(f, Filter(InGroup(group, g), s))) <= caps[g]
  }

  lemma CappedRest<T(!new), K>(f: T -> seq<Posting<K>>, group: T -> nat, s: seq<T>, caps: map<nat, int>, g: nat)
    requires Capped(f, group, s, caps) && g in caps
    ensures Capped(f, group, Filter(Not(InGroup(group, g)), s), caps - {g})
  {
    FilterMembers(Not(InGroup(group, g)), s);
    forall h | h in caps - {g}
      ensures Posted(Spread(f, Filter(InGroup(group, h), Filter(Not(InGroup(group, g)), s)))) <= caps[h]
    {
      OtherGroup(group, g, h, s);
    }
  }

  lemma OtherGroup<T(!new)>(group: T -> nat, g: nat, h: nat, s: seq<T>)
    requires g != h
    ensures Filter(InGroup(group, h), Filter(Not(InGroup(group, g)), s)) == Filter(InGroup(group, h), s)
  {
    FilterTwice(InGroup(group, h), Not(InGroup(group, g)), s);
    FilterAgree(Both(InGroup(group, h), Not(InGroup(group, g))), InGroup(group, h), s);
  }

  lemma MemberOrEmpty<T>(s: seq<T>)
    ensures s == [] || exists x :: x in s
  {
    if s != [] { assert s[0] in s; }
  }

  /** If each group posts at most its cap, everything posts at most the total of the caps. */
  lemma {:induction false} GroupBound<T(!new), K>(f: T -> seq<Posting<K>>, group: T -> nat, s: seq<T>,
                                                  caps: map<nat, int>)
    requires Capped(f, group, s, caps)
    ensures Posted(Spread(f, s)) <= Total(caps)
    decreases |caps|
  {
    if caps == map[] {
      MemberOrEmpty(s);
      assert Amounts<K>([]) == [];
    } else {
      var g :| g in caps;
      PostedSplit(f, InGroup(group, g), s);
      CappedRest(f, group, s, caps, g);
      TotalRemove(caps, g);
      SmallerMap(caps, g);
      GroupBound(f, group, Filter(Not(InGroup(group, g)), s), caps - {g});
    }
  }

  // ---- postings of zero -----------------------------------------------------

  /** `if !amount.is_zero() { … }`. */
  function NonZero<K>(p: Posting<K>): seq<Posting<K>> { if p.amount == 0 then [] else [p] }

  function NonZeros<K>(ps: seq<Posting<K>>): seq<Posting<K>> { Spread(NonZero, ps) }

  /** Skipping zeros loses nothing. */
  lemma {:induction false} PostedNonZeros<K>(ps: seq<Posting<K>>)
    ensures Posted(NonZeros(ps)) == Posted(ps)
  {
    if ps != [] {
      var n := |ps| - 1;
      PostedNonZeros(ps[..n]);
      assert ps == ps[..n] + [ps[n]];
      PostedConcat(ps[..n], [ps[n]]);
      PostedConcat(NonZeros(ps[..n]), NonZero(ps[n]));
      PostedSingle(ps[n]);
      assert Amounts<K>([]) == [];
    }
  }

  lemma {:induction false} NonZerosPositive<K>(ps: seq<Posting<K>>)
    requires forall i :: 0 <= i < |ps| ==> ps[i].amount >= 0
    ensures forall i :: 0 <= i < |NonZeros(ps)| ==> NonZeros(ps)[i].amount > 0
  {
    if ps != [] {
      var n := |ps| - 1;
      NonZerosPositive(ps[..n]);
      assert NonZeros(ps) == NonZeros(ps[..n]) + NonZero(ps[n]);
    }
  }

  // ---- the loop that tallies as it goes -------------------------------------

  /** `m` holds the tally of `base` and of what the elements posted after it. */
  ghost predicate Tallied<T, K>(m: map<K, int>, base: seq<Posting<K>>, f: T -> seq<Posting<K>>, s: seq<T>) {
    m == Tally(base + Spread(f, s))
  }

  lemma TalliedStart<T, K>(m: map<K, int>, base: seq<Posting<K>>, f: T -> seq<Posting<K>>, s: seq<T>)
    requires m == Tally(base)
    ensures Tallied(m, base, f, s[..0])
  {
    assert base + [] == base;
  }

  lemma TalliedStep<T, K>(m: map<K, int>, base: seq<Posting<K>>, f: T -> seq<Posting<K>>, s: seq<T>, i: nat)
    requires i < |s| && Tallied(m, base, f, s[..i])
    ensures f(s[i]) == [] ==> Tallied(m, base, f, s[..i + 1])
    ensures |f(s[i])| == 1 ==> Tallied(Post(m, f(s[i])[0]), base, f, s[..i + 1])
  {
    var sofar := base + Spread(f, s[..i]);
    SpreadSnoc(f, s, i);
    assert base + (Spread(f, s[..i]) + f(s[i])) == sofar + f(s[i]);
    if f(s[i]) == [] { assert sofar + [] == sofar; }
    if |f(s[i])| == 1 {
      assert f(s[i]) == [f(s[i])[0]];
      TallySnoc(sofar, f(s[i])[0]);
    }
  }

  lemma TalliedDone<T, K>(m: map<K, int>, base: seq<Posting<K>>, f: T -> seq<Posting<K>>, s: seq<T>)
    requires Tallied(m, base, f, s[..|s|])
    ensures m == Tally(base + Spread(f, s))
    ensures base == [] ==> m == Tally(Spread(f, s))
  {
    assert s[..|s|] == s;
    assert [] + Spread(f, s) == Spread(f, s);
  }
}
