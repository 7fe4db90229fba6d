/** Concatenation of parts, and where each part lies in it. */
module Sequences {
  function Join<T>(parts: seq<seq<T>>): seq<T>
  {
    if parts == [] then [] else Join(parts[..|parts| - 1]) + parts[|parts| - 1]
  }

  /** Where part `i` starts in the concatenation. */
  function Start<T>(parts: seq<seq<T>>, i: nat): nat
    requires i <= |parts|
  {
    if i == 0 then 0 else Start(parts, i - 1) + |parts[i - 1]|
  }

  lemma {:induction false} StartPrefix<T>(parts: seq<seq<T>>, n: nat, i: nat)
    requires i <= n <= |parts|
    ensures Start(parts[..n], i) == Start(parts, i)
  {
    if i > 0 { StartPrefix(parts, n, i - 1); }
  }

  lemma {:induction false} JoinLength<T>(parts: seq<seq<T>>)
    ensures |Join(parts)| == Start(parts, |parts|)
  {
    if parts != [] {
      JoinLength(parts[..|parts| - 1]);
      StartPrefix(parts, |parts| - 1, |parts| - 1);
    }
  }

  /** Each part can be read back from its place. */
  lemma {:induction false} JoinPart<T>(parts: seq<seq<T>>, i: nat)
    requires i < |parts|
    ensures Start(parts, i) + |parts[i]| <= |Join(parts)|
    ensures Join(parts)[Start(parts, i)..Start(parts, i) + |parts[i]|] == parts[i]
  {
    var n := |parts| - 1;
    JoinLength(parts[..n]);
    StartPrefix(parts, n, n);
    if i < n {
      JoinPart(parts[..n], i);
      StartPrefix(parts, n, i);
    }
  }

  predicate InPlace<T(==)>(parts: seq<seq<T>>, s: seq<T>, i: nat)
    requires i < |parts|
  {
    Start(parts, i) + |parts[i]| <= |s| && s[Start(parts, i)..Start(parts, i) + |parts[i]|] == parts[i]
  }

  lemma {:induction false} StartAscends<T>(parts: seq<seq<T>>, i: nat, j: nat)
    requires i <= j <= |parts|
    ensures Start(parts, i) <= Start(parts, j)
  {
    if i < j { StartAscends(parts, i, j - 1); }
  }

  lemma {:induction false} JoinPrefix<T>(parts: seq<seq<T>>, s: seq<T>, k: nat)
    requires k <= |parts| && Start(parts, k) <= |s|
    requires forall i :: 0 <= i < k ==> InPlace(parts, s, i)
    ensures Join(parts[..k]) == s[..Start(parts, k)]
  {
    if k > 0 {
      StartAscends(parts, k - 1, k);
      JoinPrefix(parts, s, k - 1);
      assert parts[..k][..k - 1] == parts[..k - 1];
      assert InPlace(parts, s, k - 1);
      var a, b := Start(parts, k - 1), Start(parts, k);
      assert s[..b] == s[..a] + s[a..b];
    }
  }

  /** A string that agrees with every part in its place is the concatenation. */
  lemma JoinUnique<T>(parts: seq<seq<T>>, s: seq<T>)
    requires |s| == Start(parts, |parts|)
    requires forall i :: 0 <= i < |parts| ==> InPlace(parts, s, i)
    ensures s == Join(parts)
  {
    JoinPrefix(parts, s, |parts|);
    assert parts[..|parts|] == parts && s[..|s|] == s;
  }

  lemma JoinSnoc<T>(parts: seq<seq<T>>, part: seq<T>)
    ensures Join(parts + [part]) == Join(parts) + part
  {
    assert (parts + [part])[..|parts|] == parts;
  }

  lemma {:induction false} JoinConcat<T>(a: seq<seq<T>>, b: seq<seq<T>>)
    ensures Join(a + b) == Join(a) + Join(b)
  {
    if b == [] {
      assert a + b == a;
    } else {
      var n := |b| - 1;
      assert a + b == (a + b[..n]) + [b[n]];
      JoinSnoc(a + b[..n], b[n]);
      JoinConcat(a, b[..n]);
    }
  }

  lemma SplitAround<T>(s: seq<T>, i: nat)
    requires i < |s|
    ensures s == (s[..i] + [s[i]]) + s[i + 1..]
  {
  }

  /** One part, with everything before it and everything after it. */
  lemma JoinAround<T>(parts: seq<seq<T>>, i: nat)
    requires i < |parts|
    ensures Join(parts) == Join(parts[..i]) + parts[i] + Join(parts[i + 1..])
  {
    SplitAround(parts, i);
    JoinConcat(parts[..i] + [parts[i]], parts[i + 1..]);
    JoinSnoc(parts[..i], parts[i]);
  }

  lemma SliceBeyond<T>(a: seq<T>, b: seq<T>, from: nat, to: nat)
    requires from <= to <= |b|
    ensures (a + b)[|a| + from..|a| + to] == b[from..to]
  {
  }

  /** Among parts of one length, each starts at a multiple of it. */
  lemma {:induction false} UniformStart<T>(parts: seq<seq<T>>, length: nat, i: nat)
    requires i <= |parts| && forall k :: 0 <= k < |parts| ==> |parts[k]| == length
    ensures Start(parts, i) == i * length
  {
    if i > 0 {
      UniformStart(parts, length, i - 1);
      assert (i - 1) * length + length == i * length;
    }
  }
}
