/** Stable sorting by a comparator, and the ascending enumeration of a set
    (the iteration order of an ordered map). */
module Ordering {

  ghost predicate TotalPreorder<T(!new)>(le: (T, T) -> bool)
  {
    && (forall a, b :: le(a, b) || le(b, a))
    && (forall a, b, c :: le(a, b) && le(b, c) ==> le(a, c))
  }

  ghost predicate TotalOrder<T(!new)>(le: (T, T) -> bool)
  {
    TotalPreorder(le) && forall a, b :: le(a, b) && le(b, a) ==> a == b
  }

  ghost predicate Sorted<T>(le: (T, T) -> bool, s: seq<T>)
  {
    forall i, j :: 0 <= i < j < |s| ==> le(s[i], s[j])
  }

  predicate NatLe(a: nat, b: nat) { a <= b }

  lemma NatLeIsTotalOrder()
    ensures TotalOrder(NatLe)
  {
  }

  /** Lexicographic order of pairs, the order of a map keyed by a tuple. */
  predicate PairLe(a: (nat, nat), b: (nat, nat)) { a.0 < b.0 || (a.0 == b.0 && a.1 <= b.1) }

  lemma PairLeIsTotalOrder()
    ensures TotalOrder(PairLe)
  {
  }

  lemma TakeOneMore<T>(s: seq<T>, n: nat)
    requires n < |s|
    ensures s[..n + 1] == s[..n] + [s[n]]
  {
  }

  /** What a list holds. */
  function Members<T>(s: seq<T>): set<T> { set x | x in s }

  lemma MembersSnoc<T>(s: seq<T>, i: nat)
    requires i < |s|
    ensures Members(s[..i + 1]) == Members(s[..i]) + {s[i]}
  {
    TakeOneMore(s, i);
  }

  // ---- stable sort -------------------------------------------------------

  /** Insert before the first element that is not strictly smaller. */
  function Insert<T>(le: (T, T) -> bool, x: T, s: seq<T>): (r: seq<T>)
    ensures |r| == |s| + 1
  {
    if s == [] || le(x, s[0]) then [x] + s else [s[0]] + Insert(le, x, s[1..])
  }

  /** A stable sort: `slice::sort_by` and `Array.prototype.sort` return this list. */
  function SortBy<T>(le: (T, T) -> bool, s: seq<T>): (r: seq<T>)
    ensures |r| == |s|
  {
    if s == [] then [] else Insert(le, s[0], SortBy(le, s[1..]))
  }

  lemma {:induction false} InsertElements<T>(le: (T, T) -> bool, x: T, s: seq<T>)
    ensures multiset(Insert(le, x, s)) == multiset(s) + multiset{x}
  {
    if s != [] && !le(x, s[0]) {
      InsertElements(le, x, s[1..]);
      assert s == [s[0]] + s[1..];
    }
  }

  lemma {:induction false} SortElements<T>(le: (T, T) -> bool, s: seq<T>)
    ensures multiset(SortBy(le, s)) == multiset(s)
  {
    if s != [] {
      SortElements(le, s[1..]);
      InsertElements(le, s[0], SortBy(le, s[1..]));
      assert s == [s[0]] + s[1..];
    }
  }

  lemma SortMembers<T>(le: (T, T) -> bool, s: seq<T>)
    ensures forall x :: x in SortBy(le, s) <==> x in s
  {
    SortElements(le, s);
    forall x ensures x in SortBy(le, s) <==> x in s {
      assert x in SortBy(le, s) <==> x in multiset(SortBy(le, s));
      assert x in s <==> x in multiset(s);
    }
  }

  lemma {:induction false} InsertSorted<T(!new)>(le: (T, T) -> bool, x: T, s: seq<T>)
    requires TotalPreorder(le) && Sorted(le, s)
    ensures Sorted(le, Insert(le, x, s))
  {
    if s != [] && !le(x, s[0]) {
      InsertSorted(le, x, s[1..]);
      var t := Insert(le, x, s[1..]);
      InsertElements(le, x, s[1..]);
      forall i | 0 <= i < |t| ensures le(s[0], t[i]) {
        assert t[i] in multiset(t);
        assert t[i] in s[1..] || t[i] == x;
      }
    }
  }

  lemma {:induction false} SortSorted<T(!new)>(le: (T, T) -> bool, s: seq<T>)
    requires TotalPreorder(le)
    ensures Sorted(le, SortBy(le, s))
  {
    if s != [] {
      SortSorted(le, s[1..]);
      InsertSorted(le, s[0], SortBy(le, s[1..]));
    }
  }

  /** Sorting leaves an already sorted list alone. */
  lemma {:induction false} SortIdempotent<T>(le: (T, T) -> bool, s: seq<T>)
    requires Sorted(le, s)
    ensures SortBy(le, s) == s
  {
    if s != [] {
      SortIdempotent(le, s[1..]);
      if |s| > 1 { assert le(s[0], s[1]); }
    }
  }

  lemma TailElements<T>(s: seq<T>)
    requires s != []
    ensures multiset(s[1..]) == multiset(s) - multiset{s[0]}
  {
    assert s == [s[0]] + s[1..];
  }

  lemma RemoveElement<T>(s: seq<T>, i: nat)
    requires i < |s|
    ensures multiset(s[..i] + s[i + 1..]) == multiset(s) - multiset{s[i]}
  {
    assert s == s[..i] + [s[i]] + s[i + 1..];
  }

  /** Under an order without ties, the elements determine the sorted list. */
  lemma {:induction false} SortedUnique<T(!new)>(le: (T, T) -> bool, a: seq<T>, b: seq<T>)
    requires TotalPreorder(le) && Sorted(le, a) && Sorted(le, b) && multiset(a) == multiset(b)
    requires forall x, y :: x in a && y in a && le(x, y) && le(y, x) ==> x == y
    ensures a == b
  {
    SameLength(a, b);
    if a != [] {
      SameFirst(le, a, b);
      TailElements(a);
      TailElements(b);
      SortedTail(le, a);
      SortedTail(le, b);
      SortedUnique(le, a[1..], b[1..]);
      assert a == [a[0]] + a[1..] && b == [b[0]] + b[1..];
    }
  }

  lemma SameLength<T>(a: seq<T>, b: seq<T>)
    requires multiset(a) == multiset(b)
    ensures |a| == |b|
  {
    assert |a| == |multiset(a)| && |b| == |multiset(b)|;
  }

  lemma SortedTail<T>(le: (T, T) -> bool, s: seq<T>)
    requires s != [] && Sorted(le, s)
    ensures Sorted(le, s[1..]) && forall x :: x in s[1..] ==> x in s
  {
  }

  lemma SameFirst<T(!new)>(le: (T, T) -> bool, a: seq<T>, b: seq<T>)
    requires TotalPreorder(le) && Sorted(le, a) && Sorted(le, b) && multiset(a) == multiset(b)
    requires a != [] && b != []
    requires forall x, y :: x in a && y in a && le(x, y) && le(y, x) ==> x == y
    ensures a[0] == b[0]
  {
    assert b[0] in multiset(a) && a[0] in multiset(b);
    var i :| 0 <= i < |a| && a[i] == b[0];
    var j :| 0 <= j < |b| && b[j] == a[0];
    assert i > 0 ==> le(a[0], a[i]);
    assert j > 0 ==> le(b[0], b[j]);
  }

  ghost predicate Distinct<T>(s: seq<T>)
  {
    forall i, j :: 0 <= i < j < |s| ==> s[i] != s[j]
  }

  lemma {:induction false} InsertDistinct<T>(le: (T, T) -> bool, x: T, s: seq<T>)
    requires Distinct(s) && x !in s
    ensures Distinct(Insert(le, x, s))
  {
    if s != [] && !le(x, s[0]) {
      assert x !in s[1..];
      InsertDistinct(le, x, s[1..]);
      var t := Insert(le, x, s[1..]);
      InsertElements(le, x, s[1..]);
      forall i | 0 <= i < |t| ensures s[0] != t[i] {
        assert t[i] in multiset(t);
        assert t[i] in s[1..] || t[i] == x;
      }
    }
  }

  lemma {:induction false} SortDistinct<T>(le: (T, T) -> bool, s: seq<T>)
    requires Distinct(s)
    ensures Distinct(SortBy(le, s))
  {
    if s != [] {
      SortDistinct(le, s[1..]);
      SortElements(le, s[1..]);
      assert s[0] in multiset(SortBy(le, s[1..])) <==> s[0] in s[1..];
      InsertDistinct(le, s[0], SortBy(le, s[1..]));
    }
  }

  // ---- filters -----------------------------------------------------------

  function Filter<T>(p: T -> bool, s: seq<T>): (r: seq<T>)
  {
    if s == [] then [] else
    (if p(s[0]) then [s[0]] else []) + Filter(p, s[1..])
  }

  lemma {:induction false} FilterMember<T>(p: T -> bool, s: seq<T>, x: T)
    ensures x in Filter(p, s) <==> x in s && p(x)
  {
    if s != [] {
      FilterMember(p, s[1..], x);
      assert s == [s[0]] + s[1..];
    }
  }

  lemma FilterMembers<T(!new)>(p: T -> bool, s: seq<T>)
    ensures forall x :: x in Filter(p, s) <==> x in s && p(x)
  {
    forall x ensures x in Filter(p, s) <==> x in s && p(x) { FilterMember(p, s, x); }
  }

  lemma FilterTail<T>(p: T -> bool, s: seq<T>)
    requires s != []
    ensures p(s[0]) ==> Filter(p, s) == [s[0]] + Filter(p, s[1..]) && Filter(p, s[1..]) == Filter(p, s)[1..]
    ensures !p(s[0]) ==> Filter(p, s) == Filter(p, s[1..])
  {
    assert !p(s[0]) ==> [] + Filter(p, s[1..]) == Filter(p, s[1..]);
    assert ([s[0]] + Filter(p, s[1..]))[1..] == Filter(p, s[1..]);
  }

  /** Two predicates that agree on a list select the same elements. */
  lemma {:induction false} FilterAgree<T(!new)>(p: T -> bool, q: T -> bool, s: seq<T>)
    requires forall x :: x in s ==> p(x) == q(x)
    ensures Filter(p, s) == Filter(q, s)
  {
    if s != [] { FilterAgree(p, q, s[1..]); }
  }

  lemma {:induction false} FilterSorted<T(!new)>(p: T -> bool, le: (T, T) -> bool, s: seq<T>)
    requires Sorted(le, s)
    ensures Sorted(le, Filter(p, s))
  {
    if s != [] {
      FilterSorted(p, le, s[1..]);
      forall x | x in Filter(p, s[1..]) ensures le(s[0], x) {
        FilterMember(p, s[1..], x);
        var i :| 0 <= i < |s[1..]| && s[1..][i] == x;
        assert le(s[0], s[i + 1]);
      }
    }
  }

  lemma {:induction false} FilterInsertOther<T(!new)>(p: T -> bool, le: (T, T) -> bool, x: T, s: seq<T>)
    requires !p(x)
    ensures Filter(p, Insert(le, x, s)) == Filter(p, s)
  {
    if s == [] || le(x, s[0]) {
      assert ([x] + s)[1..] == s;
    } else {
      FilterInsertOther(p, le, x, s[1..]);
      assert ([s[0]] + Insert(le, x, s[1..]))[1..] == Insert(le, x, s[1..]);
    }
  }

  lemma {:induction false} FilterInsertFirst<T(!new)>(p: T -> bool, le: (T, T) -> bool, x: T, s: seq<T>)
    requires p(x) && forall y :: y in s && p(y) ==> le(x, y)
    ensures Filter(p, Insert(le, x, s)) == [x] + Filter(p, s)
  {
    if s == [] || le(x, s[0]) {
      assert ([x] + s)[1..] == s;
    } else {
      assert s[0] in s && !p(s[0]);
      var rest := Insert(le, x, s[1..]);
      FilterInsertFirst(p, le, x, s[1..]);
      assert ([s[0]] + rest)[0] == s[0] && ([s[0]] + rest)[1..] == rest;
      assert Filter(p, s) == Filter(p, s[1..]);
    }
  }

  /** Stability: a class of elements that stands in order keeps its own order. */
  lemma {:induction false} SortStable<T(!new)>(p: T -> bool, le: (T, T) -> bool, s: seq<T>)
    requires Sorted(le, Filter(p, s))
    ensures Filter(p, SortBy(le, s)) == Filter(p, s)
  {
    if s != [] {
      var rest := Filter(p, s[1..]);
      if p(s[0]) {
        assert Filter(p, s) == [s[0]] + rest;
        forall i, j | 0 <= i < j < |rest| ensures le(rest[i], rest[j]) {
          assert le(Filter(p, s)[i + 1], Filter(p, s)[j + 1]);
        }
        SortStable(p, le, s[1..]);
        SortMembers(le, s[1..]);
        forall y | y in SortBy(le, s[1..]) && p(y) ensures le(s[0], y) {
          FilterMember(p, s[1..], y);
          var k :| 0 <= k < |rest| && rest[k] == y;
          assert le(Filter(p, s)[0], Filter(p, s)[k + 1]);
        }
        FilterInsertFirst(p, le, s[0], SortBy(le, s[1..]));
      } else {
        assert Filter(p, s) == rest;
        SortStable(p, le, s[1..]);
        FilterInsertOther(p, le, s[0], SortBy(le, s[1..]));
      }
    }
  }

  function Both<T>(p: T -> bool, q: T -> bool): T -> bool { x => p(x) && q(x) }

  lemma {:induction false} FilterTwice<T>(p: T -> bool, q: T -> bool, s: seq<T>)
    ensures Filter(p, Filter(q, s)) == Filter(Both(p, q), s)
  {
    if s != [] {
      FilterTwice(p, q, s[1..]);
      FilterTail(q, s);
      FilterTail(Both(p, q), s);
      if q(s[0]) { FilterTail(p, Filter(q, s)); }
    }
  }

  lemma FiltersCommute<T(!new)>(p: T -> bool, q: T -> bool, s: seq<T>)
    ensures Filter(p, Filter(q, s)) == Filter(q, Filter(p, s))
  {
    FilterTwice(p, q, s);
    FilterTwice(q, p, s);
    FilterAgree(Both(p, q), Both(q, p), s);
  }

  lemma {:induction false} FilterConcat<T>(p: T -> bool, a: seq<T>, b: seq<T>)
    ensures Filter(p, a + b) == Filter(p, a) + Filter(p, b)
  {
    if a == [] {
      assert a + b == b;
    } else {
      assert (a + b)[1..] == a[1..] + b;
      FilterConcat(p, a[1..], b);
      FilterTail(p, a);
      FilterTail(p, a + b);
    }
  }

  lemma FilterSnoc<T>(p: T -> bool, s: seq<T>, i: nat)
    requires i < |s|
    ensures Filter(p, s[..i + 1]) == Filter(p, s[..i]) + (if p(s[i]) then [s[i]] else [])
  {
    TakeOneMore(s, i);
    FilterConcat(p, s[..i], [s[i]]);
    FilterTail(p, [s[i]]);
  }

  lemma {:induction false} FilterDistinct<T(!new)>(p: T -> bool, s: seq<T>)
    requires Distinct(s)
    ensures Distinct(Filter(p, s))
  {
    if s != [] {
      FilterDistinct(p, s[1..]);
      FilterTail(p, s);
      FilterMember(p, s[1..], s[0]);
    }
  }

  /** Lists without repetition and with the same members hold the same elements. */
  lemma {:induction false} DistinctMembers<T(!new)>(a: seq<T>, b: seq<T>)
    requires Distinct(a) && Distinct(b) && forall x :: x in a <==> x in b
    ensures multiset(a) == multiset(b)
  {
    forall x ensures multiset(a)[x] == multiset(b)[x] {
      DistinctCount(a, x);
      DistinctCount(b, x);
    }
  }

  lemma {:induction false} DistinctCount<T>(s: seq<T>, x: T)
    requires Distinct(s)
    ensures multiset(s)[x] == if x in s then 1 else 0
  {
    if s != [] {
      DistinctCount(s[1..], x);
      assert s == [s[0]] + s[1..];
    }
  }

  // ---- ascending enumeration of a set -------------------------------------

  ghost predicate Least<T(!new)>(le: (T, T) -> bool, s: set<T>, m: T)
  {
    m in s && forall y :: y in s ==> le(m, y)
  }

  lemma {:induction false} LeastExists<T(!new)>(le: (T, T) -> bool, s: set<T>) returns (m: T)
    requires TotalOrder(le) && s != {}
    ensures Least(le, s, m)
    decreases s
  {
    var x :| x in s;
    if s == {x} {
      m := x;
    } else {
      var rest := s - {x};
      var least := LeastExists(le, rest);
      m := if le(x, least) then x else least;
      assert forall y :: y in s ==> y == x || y in rest;
    }
  }

  /** The elements of a set in strictly ascending order. */
  function Ascending<T(!new)>(le: (T, T) -> bool, s: set<T>): (r: seq<T>)
    requires TotalOrder(le)
    ensures forall x :: x in r <==> x in s
    ensures |r| == |s|
    ensures forall i, j :: 0 <= i < j < |r| ==> le(r[i], r[j]) && r[i] != r[j]
  {
    if s == {} then [] else
      assert exists m :: Least(le, s, m) by { var m := LeastExists(le, s); }
      var m :| m in s && forall y :: y in s ==> le(m, y);
      [m] + Ascending(le, s - {m})
  }

  ghost predicate StrictlyAscending<T>(le: (T, T) -> bool, s: seq<T>)
  {
    forall i, j :: 0 <= i < j < |s| ==> le(s[i], s[j]) && s[i] != s[j]
  }

  lemma TailMembers<T(!new)>(le: (T, T) -> bool, s: seq<T>)
    requires StrictlyAscending(le, s) && s != []
    ensures forall x :: x in s[1..] <==> x in s && x != s[0]
  {
    assert s == [s[0]] + s[1..];
    forall i | 0 <= i < |s[1..]| ensures s[1..][i] != s[0] {
      assert s[0] != s[i + 1];
    }
  }

  lemma {:induction false} AscendingUnique<T(!new)>(le: (T, T) -> bool, a: seq<T>, b: seq<T>)
    requires TotalOrder(le) && StrictlyAscending(le, a) && StrictlyAscending(le, b)
    requires forall x :: x in a <==> x in b
    ensures a == b
  {
    assert b != [] ==> b[0] in a;
    if a != [] {
      assert a[0] in b;
      assert a[0] == b[0];
      TailMembers(le, a);
      TailMembers(le, b);
      AscendingUnique(le, a[1..], b[1..]);
    }
  }

  lemma {:induction false} FilterStrict<T(!new)>(p: T -> bool, le: (T, T) -> bool, s: seq<T>)
    requires StrictlyAscending(le, s)
    ensures StrictlyAscending(le, Filter(p, s))
  {
    if s != [] {
      FilterStrict(p, le, s[1..]);
      forall x | x in Filter(p, s[1..]) ensures le(s[0], x) && s[0] != x {
        FilterMember(p, s[1..], x);
        var i :| 0 <= i < |s[1..]| && s[1..][i] == x;
        assert le(s[0], s[i + 1]);
      }
    }
  }

  /** Selecting from an enumeration enumerates the selection. */
  lemma FilterAscending<T(!new)>(p: T -> bool, le: (T, T) -> bool, s: set<T>, selected: set<T>)
    requires TotalOrder(le) && forall x :: x in selected <==> x in s && p(x)
    ensures Filter(p, Ascending(le, s)) == Ascending(le, selected)
  {
    FilterStrict(p, le, Ascending(le, s));
    FilterMembers(p, Ascending(le, s));
    AscendingUnique(le, Filter(p, Ascending(le, s)), Ascending(le, selected));
  }

  lemma LeastNat(s: set<nat>) returns (m: nat)
    requires s != {}
    ensures IsLeast(s, m)
  {
    NatLeIsTotalOrder();
    m := LeastExists(NatLe, s);
    assert forall y :: y in s ==> NatLe(m, y);
  }

  /** The ascending enumeration of a set of numbers. */
  function AscendingNats(s: set<nat>): (r: seq<nat>)
    ensures |r| == |s|
    ensures forall i :: 0 <= i < |r| ==> r[i] in s
    ensures forall i, j :: 0 <= i < j < |r| ==> r[i] < r[j]
  {
    if s == {} then [] else [Minimum(s)] + AscendingNats(s - {Minimum(s)})
  }

  predicate IsLeast(s: set<nat>, m: nat) { m in s && forall y :: y in s ==> m <= y }

  function Minimum(s: set<nat>): (m: nat)
    requires s != {}
    ensures IsLeast(s, m)
  {
    assert exists m :: IsLeast(s, m) by { var m := LeastNat(s); }
    var m :| IsLeast(s, m);
    m
  }

  lemma {:induction false} AscendingNatsCover(s: set<nat>, x: nat)
    requires x in s
    ensures x in AscendingNats(s)
    decreases s
  {
    if x != Minimum(s) { AscendingNatsCover(s - {Minimum(s)}, x); }
  }

  lemma AscendingNatsMembers(s: set<nat>)
    ensures forall x :: x in AscendingNats(s) <==> x in s
  {
    forall x | x in s ensures x in AscendingNats(s) { AscendingNatsCover(s, x); }
  }
}
