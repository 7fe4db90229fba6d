/** Ordered maps filled by a loop in which later entries overwrite earlier ones. */
module LastWrite {
  import opened Wrappers
  import opened Ordering

  /** Insert what `read` makes of each element, in order; `None` is skipped. */
  function Overwrite<T, K, V>(read: T -> Option<(K, V)>, s: seq<T>): map<K, V>
  {
    if s == [] then map[] else
      var before := Overwrite(read, s[..|s| - 1]);
      match read(s[|s| - 1])
      case None => before
      case Some(entry) => before[entry.0 := entry.1]
  }

  predicate Writes<T, K(==), V>(read: T -> Option<(K, V)>, x: T, k: K) {
    read(x).Some? && read(x).value.0 == k
  }

  lemma {:induction false} OverwriteKeys<T, K, V>(read: T -> Option<(K, V)>, s: seq<T>, k: K)
    ensures k in Overwrite(read, s) <==> exists x :: x in s && Writes(read, x, k)
  {
    if s != [] {
      var n := |s| - 1;
      OverwriteKeys(read, s[..n], k);
      assert s == s[..n] + [s[n]];
      assert Writes(read, s[n], k) ==> s[n] in s;
      if x :| x in s && Writes(read, x, k) && x !in s[..n] { assert x == s[n]; }
      if x :| x in s[..n] && Writes(read, x, k) { assert x in s; }
    }
  }

  /** The value of a key is written by an element that no other writer of the key exceeds. */
  lemma {:induction false} OverwriteLatest<T(!new), K, V>(read: T -> Option<(K, V)>, le: (T, T) -> bool, s: seq<T>,
                                                          k: K)
    returns (x: T)
    requires TotalPreorder(le) && Sorted(le, s) && k in Overwrite(read, s)
    ensures x in s && Writes(read, x, k) && read(x).value.1 == Overwrite(read, s)[k]
    ensures forall y :: y in s && Writes(read, y, k) ==> le(y, x)
  {
    var n := |s| - 1;
    assert s == s[..n] + [s[n]];
    if Writes(read, s[n], k) {
      x := s[n];
      assert le(s[n], s[n]);
      forall y | y in s ensures le(y, x) {
        var i :| 0 <= i < |s| && s[i] == y;
      }
    } else {
      x := OverwriteLatest(read, le, s[..n], k);
    }
  }

  // ---- sorting by position as a tie-break ---------------------------------

  function Positioned<T>(s: seq<T>): (r: seq<(nat, T)>)
    ensures |r| == |s| && forall i :: 0 <= i < |r| ==> r[i] == (i, s[i])
  {
    seq(|s|, i requires 0 <= i < |s| => (i, s[i]))
  }

  function Seconds<A, B>(s: seq<(A, B)>): (r: seq<B>)
    ensures |r| == |s|
  {
    if s == [] then [] else [s[0].1] + Seconds(s[1..])
  }

  lemma {:induction false} SecondsAt<A, B>(s: seq<(A, B)>, i: nat)
    requires i < |s|
    ensures Seconds(s)[i] == s[i].1
  {
    if i > 0 { SecondsAt(s[1..], i - 1); }
  }

  /** Positions ascend along the list. */
  ghost predicate InOrder<T>(s: seq<(nat, T)>) { forall i, j :: 0 <= i < j < |s| ==> s[i].0 < s[j].0 }

  ghost predicate PositionBreaksTies<T(!new)>(le: (T, T) -> bool, byPosition: ((nat, T), (nat, T)) -> bool) {
    forall a: (nat, T), b: (nat, T) :: a.0 < b.0 ==> byPosition(a, b) == le(a.1, b.1)
  }

  /** Sorting (key, position) pairs is a stable sort by key: the position decides nothing else. */
  lemma {:induction false} PositionIsStability<T(!new)>(le: (T, T) -> bool, byPosition: ((nat, T), (nat, T)) -> bool,
                                                        s: seq<(nat, T)>)
    requires InOrder(s) && PositionBreaksTies(le, byPosition)
    ensures Seconds(SortBy(byPosition, s)) == SortBy(le, Seconds(s))
  {
    if s != [] {
      PositionIsStability(le, byPosition, s[1..]);
      var rest := SortBy(byPosition, s[1..]);
      SortMembers(byPosition, s[1..]);
      forall y | y in rest ensures s[0].0 < y.0 {
        var i :| 0 <= i < |s[1..]| && s[1..][i] == y;
        assert s[0].0 < s[i + 1].0;
      }
      InsertSeconds(le, byPosition, s[0], rest);
      assert Seconds(s)[1..] == Seconds(s[1..]);
    }
  }

  lemma {:induction false} InsertSeconds<T(!new)>(le: (T, T) -> bool, byPosition: ((nat, T), (nat, T)) -> bool,
                                                  x: (nat, T), s: seq<(nat, T)>)
    requires PositionBreaksTies(le, byPosition)
    requires forall y :: y in s ==> x.0 < y.0
    ensures Seconds(Insert(byPosition, x, s)) == Insert(le, x.1, Seconds(s))
  {
    if s == [] {
      assert ([x] + s)[1..] == [];
    } else {
      assert s[0] in s;
      assert Seconds(s)[1..] == Seconds(s[1..]);
      if byPosition(x, s[0]) {
        assert ([x] + s)[1..] == s;
      } else {
        InsertSeconds(le, byPosition, x, s[1..]);
        var t := Insert(byPosition, x, s[1..]);
        assert ([s[0]] + t)[1..] == t;
      }
    }
  }

  lemma {:induction false} FilterSeconds<T>(keep: T -> bool, keepPair: ((nat, T)) -> bool, s: seq<(nat, T)>)
    requires forall i :: 0 <= i < |s| ==> keepPair(s[i]) == keep(s[i].1)
    ensures Seconds(Filter(keepPair, s)) == Filter(keep, Seconds(s))
  {
    if s != [] {
      FilterSeconds(keep, keepPair, s[1..]);
      FilterTail(keepPair, s);
      FilterTail(keep, Seconds(s));
      assert Seconds(s)[1..] == Seconds(s[1..]);
      assert keepPair(s[0]) == keep(s[0].1);
    }
  }

  lemma {:induction false} FilterInOrder<T>(keep: ((nat, T)) -> bool, s: seq<(nat, T)>)
    requires InOrder(s)
    ensures InOrder(Filter(keep, s))
  {
    if s != [] {
      FilterInOrder(keep, s[1..]);
      var rest := Filter(keep, s[1..]);
      forall i | 0 <= i < |rest| ensures s[0].0 < rest[i].0 {
        FilterMember(keep, s[1..], rest[i]);
        var j :| 0 <= j < |s[1..]| && s[1..][j] == rest[i];
        assert s[0].0 < s[j + 1].0;
      }
    }
  }

  lemma SecondsOfPositioned<T>(s: seq<T>)
    ensures Seconds(Positioned(s)) == s
  {
    forall i | 0 <= i < |s| ensures Seconds(Positioned(s))[i] == s[i] {
      SecondsAt(Positioned(s), i);
    }
  }

  // ---- lists determined by their classes ------------------------------------

  /** Lists that agree on every class of equal keys hold the same elements. */
  ghost predicate SameClasses<T(!new)>(key: T -> nat, a: seq<T>, b: seq<T>) {
    forall t: nat :: Filter(OfClass(key, t), a) == Filter(OfClass(key, t), b)
  }

  function OfClass<T>(key: T -> nat, t: nat): T -> bool { x => key(x) == t }

  function ByKey<T>(key: T -> nat): (T, T) -> bool { (x, y) => key(x) <= key(y) }

  lemma SameClassesMember<T(!new)>(key: T -> nat, a: seq<T>, b: seq<T>, x: T)
    requires SameClasses(key, a, b)
    ensures x in a <==> x in b
  {
    FilterMember(OfClass(key, key(x)), a, x);
    FilterMember(OfClass(key, key(x)), b, x);
  }

  /** A list sorted by key is determined by its classes. */
  lemma {:induction false} SortedByClasses<T(!new)>(key: T -> nat, a: seq<T>, b: seq<T>)
    requires Sorted(ByKey(key), a) && Sorted(ByKey(key), b) && SameClasses(key, a, b)
    ensures a == b
  {
    if a == [] {
      if b != [] { SameClassesMember(key, a, b, b[0]); }
    } else {
      SameHead(key, a, b);
      forall t: nat ensures Filter(OfClass(key, t), a[1..]) == Filter(OfClass(key, t), b[1..]) {
        assert Filter(OfClass(key, t), a) == Filter(OfClass(key, t), b);
        FilterTail(OfClass(key, t), a);
        FilterTail(OfClass(key, t), b);
      }
      SortedTail(ByKey(key), a);
      SortedTail(ByKey(key), b);
      SortedByClasses(key, a[1..], b[1..]);
      assert a == [a[0]] + a[1..] && b == [b[0]] + b[1..];
    }
  }

  lemma SameHead<T(!new)>(key: T -> nat, a: seq<T>, b: seq<T>)
    requires Sorted(ByKey(key), a) && Sorted(ByKey(key), b) && SameClasses(key, a, b) && a != []
    ensures b != [] && a[0] == b[0]
  {
    SameClassesMember(key, a, b, a[0]);
    SameClassesMember(key, a, b, b[0]);
    HeadIsLeast(key, b, a[0]);
    HeadIsLeast(key, a, b[0]);
    var t := key(a[0]);
    FilterTail(OfClass(key, t), a);
    FilterTail(OfClass(key, t), b);
    assert Filter(OfClass(key, t), a)[0] == Filter(OfClass(key, t), b)[0];
  }

  lemma HeadIsLeast<T(!new)>(key: T -> nat, s: seq<T>, x: T)
    requires Sorted(ByKey(key), s) && x in s
    ensures key(s[0]) <= key(x)
  {
    var i :| 0 <= i < |s| && s[i] == x;
    if i > 0 { assert ByKey(key)(s[0], s[i]); }
  }

  lemma ClassSorted<T>(key: T -> nat, t: nat, s: seq<T>)
    ensures Sorted(ByKey(key), Filter(OfClass(key, t), s))
  {
    var c := Filter(OfClass(key, t), s);
    forall i | 0 <= i < |c| ensures key(c[i]) == t {
      FilterMember(OfClass(key, t), s, c[i]);
    }
  }

  /** Stable sorting by key forgets how the classes were interleaved, and nothing else. */
  lemma SortForgetsInterleaving<T(!new)>(key: T -> nat, a: seq<T>, b: seq<T>)
    requires SameClasses(key, a, b)
    ensures SortBy(ByKey(key), a) == SortBy(ByKey(key), b)
  {
    var x, y := SortBy(ByKey(key), a), SortBy(ByKey(key), b);
    SortSorted(ByKey(key), a);
    SortSorted(ByKey(key), b);
    forall t: nat ensures Filter(OfClass(key, t), x) == Filter(OfClass(key, t), y) {
      ClassSorted(key, t, a);
      ClassSorted(key, t, b);
      SortStable(OfClass(key, t), ByKey(key), a);
      SortStable(OfClass(key, t), ByKey(key), b);
      assert Filter(OfClass(key, t), a) == Filter(OfClass(key, t), b);
    }
    SortedByClasses(key, x, y);
  }
}
