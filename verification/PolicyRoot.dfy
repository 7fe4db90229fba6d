/** The root of the source policy: `source_policy_leaf` and `source_policy_root` of
    crates/composition-core/src/codec.rs. */
module PolicyRoot {
  import opened Bytes
  import opened Ordering
  import opened Merkle
  import M = Manifest

  /** The fields of a captured source that its policy leaf hashes. */
  datatype SourcePolicy = SourcePolicy(
    sourceId: B256, snapshot: Address, familyId: B256, programId: B256, sourceOutputDomain: B256,
    weight: U64, maxAgeBlocks: U64, required: bool)

  function PolicyOf(s: M.CapturedSource): SourcePolicy
  {
    SourcePolicy(s.sourceId, s.snapshot, s.familyId, s.programId, s.sourceOutputDomain, s.weight, s.maxAgeBlocks,
      s.required)
  }

  function Policies(sources: seq<M.CapturedSource>): (r: seq<SourcePolicy>)
    ensures |r| == |sources|
  {
    seq(|sources|, i requires 0 <= i < |sources| => PolicyOf(sources[i]))
  }

  function InIdOrder(sources: seq<M.CapturedSource>): seq<SourcePolicy> { Policies(SortBy(M.SourceIdLe, sources)) }

  function Root(h: Hasher<SourcePolicy>, sources: seq<M.CapturedSource>): Digest
  {
    if sources == [] then 0 else Value(h, LevelTree(Leaves(InIdOrder(sources))))
  }

  function LevelValues(h: Hasher<SourcePolicy>, level: seq<Tree<SourcePolicy>>): (r: seq<Digest>)
    ensures |r| == |level|
  {
    if level == [] then [] else [Value(h, level[0])] + LevelValues(h, level[1..])
  }

  function PairedDigests(h: Hasher<SourcePolicy>, level: seq<Digest>): (r: seq<Digest>)
    ensures |r| == (|level| + 1) / 2
  {
    if level == [] then [] else if |level| == 1 then level
    else [HashPair(h, level[0], level[1])] + PairedDigests(h, level[2..])
  }

  lemma {:induction false} PairedValues(h: Hasher<SourcePolicy>, level: seq<Tree<SourcePolicy>>)
    ensures LevelValues(h, Paired(level)) == PairedDigests(h, LevelValues(h, level))
  {
    if |level| >= 2 {
      PairedValues(h, level[2..]);
      assert Paired(level)[1..] == Paired(level[2..]);
      assert level[1..][1..] == level[2..];
      assert LevelValues(h, level)[2..] == LevelValues(h, level[2..]);
    } else if |level| == 1 {
      assert level[1..] == [];
    }
  }

  function Chunk(h: Hasher<SourcePolicy>, level: seq<Digest>, k: nat): Digest
    requires 2 * k < |level|
  {
    if 2 * k + 1 < |level| then HashPair(h, level[2 * k], level[2 * k + 1]) else level[2 * k]
  }

  lemma {:induction false} PairedAt(h: Hasher<SourcePolicy>, level: seq<Digest>, k: nat)
    requires 2 * k < |level|
    ensures PairedDigests(h, level)[k] == Chunk(h, level, k)
  {
    if k > 0 { PairedAt(h, level[2..], k - 1); }
  }

  ghost predicate Chunked(h: Hasher<SourcePolicy>, level: seq<Digest>, next: seq<Digest>) {
    |next| <= (|level| + 1) / 2 && forall k :: 0 <= k < |next| ==> next[k] == Chunk(h, level, k)
  }

  lemma AllChunked(h: Hasher<SourcePolicy>, level: seq<Digest>, next: seq<Digest>)
    requires Chunked(h, level, next) && |next| == (|level| + 1) / 2
    ensures next == PairedDigests(h, level)
  {
    forall k | 0 <= k < |next| ensures next[k] == PairedDigests(h, level)[k] { PairedAt(h, level, k); }
  }

  /** One pass over the chunks of two. */
  method NextLevel(h: Hasher<SourcePolicy>, level: seq<Digest>) returns (next: seq<Digest>)
    ensures next == PairedDigests(h, level)
  {
    next := [];
    while 2 * |next| < |level|
      invariant Chunked(h, level, next)
    {
      next := next + [Chunk(h, level, |next|)];
    }
    AllChunked(h, level, next);
  }

  method SourceLeaves(h: Hasher<SourcePolicy>, policies: seq<SourcePolicy>) returns (level: seq<Digest>)
    ensures level == LevelValues(h, Leaves(policies))
  {
    level := [];
    for i := 0 to |policies|
      invariant level + LevelValues(h, Leaves(policies[i..])) == LevelValues(h, Leaves(policies))
    {
      assert Leaves(policies[i..])[1..] == Leaves(policies[i + 1..]);
      level := level + [h.leaf(policies[i])];
    }
    assert policies[|policies|..] == [];
  }

  /** `source_policy_root`. */
  method SourcePolicyRoot(h: Hasher<SourcePolicy>, sources: seq<M.CapturedSource>) returns (root: Digest)
    ensures root == Root(h, sources)
  {
    if sources == [] { return 0; }
    var policies := InIdOrder(sources);
    var level := SourceLeaves(h, policies);
    ghost var trees := Leaves(policies);
    while |level| > 1
      invariant trees != [] && level == LevelValues(h, trees) && LevelTree(trees) == LevelTree(Leaves(policies))
      decreases |level|
    {
      PairedValues(h, trees);
      trees := Paired(trees);
      level := NextLevel(h, level);
    }
    root := level[0];
  }

  lemma RootItems(sources: seq<M.CapturedSource>)
    requires sources != []
    ensures Items(LevelTree(Leaves(InIdOrder(sources)))) == multiset(Policies(sources))
  {
    LevelTreeItems(Leaves(InIdOrder(sources)));
    LeavesItems(InIdOrder(sources));
    SortElements(M.SourceIdLe, sources);
    PoliciesPermuted(SortBy(M.SourceIdLe, sources), sources);
  }

  lemma PoliciesWithout(sources: seq<M.CapturedSource>, i: nat)
    requires i < |sources|
    ensures multiset(Policies(sources[..i] + sources[i + 1..]))
      == multiset(Policies(sources)) - multiset{PolicyOf(sources[i])}
  {
    assert Policies(sources)[..i] + Policies(sources)[i + 1..] == Policies(sources[..i] + sources[i + 1..]);
    RemoveElement(Policies(sources), i);
  }

  lemma IndexOf(s: seq<M.CapturedSource>, x: M.CapturedSource) returns (i: nat)
    requires x in multiset(s)
    ensures i < |s| && s[i] == x
  {
    i :| 0 <= i < |s| && s[i] == x;
  }

  function Without(s: seq<M.CapturedSource>, i: nat): seq<M.CapturedSource>
    requires i < |s|
  {
    s[..i] + s[i + 1..]
  }

  lemma SameWithout(a: seq<M.CapturedSource>, i: nat, b: seq<M.CapturedSource>, j: nat)
    requires i < |a| && j < |b| && a[i] == b[j] && multiset(a) == multiset(b)
    ensures multiset(Without(a, i)) == multiset(Without(b, j))
  {
    RemoveElement(a, i);
    RemoveElement(b, j);
  }

  lemma SameWith(a: seq<M.CapturedSource>, i: nat, b: seq<M.CapturedSource>, j: nat)
    requires i < |a| && j < |b| && a[i] == b[j]
    requires multiset(Policies(Without(a, i))) == multiset(Policies(Without(b, j)))
    ensures multiset(Policies(a)) == multiset(Policies(b))
  {
    PoliciesWithout(a, i);
    PoliciesWithout(b, j);
    Restored(Policies(a), i, Policies(b), j);
  }

  lemma {:induction false} PoliciesPermuted(a: seq<M.CapturedSource>, b: seq<M.CapturedSource>)
    requires multiset(a) == multiset(b)
    ensures multiset(Policies(a)) == multiset(Policies(b))
    decreases |a|
  {
    SameLength(a, b);
    if a != [] {
      assert a[0] in multiset(a);
      var i := IndexOf(b, a[0]);
      SameWithout(a, 0, b, i);
      PoliciesPermuted(Without(a, 0), Without(b, i));
      SameWith(a, 0, b, i);
    }
  }

  lemma Restored(a: seq<SourcePolicy>, i: nat, b: seq<SourcePolicy>, j: nat)
    requires i < |a| && j < |b| && a[i] == b[j] && multiset(a) - multiset{a[i]} == multiset(b) - multiset{b[j]}
    ensures multiset(a) == multiset(b)
  {
    assert a[i] in multiset(a) && b[j] in multiset(b);
    assert multiset(a) == multiset(a) - multiset{a[i]} + multiset{a[i]};
    assert multiset(b) == multiset(b) - multiset{b[j]} + multiset{b[j]};
  }

  /** The root commits to the policy of every source: sources of equal root have the same policies. */
  lemma RootBindsPolicy(h: Hasher<SourcePolicy>, a: seq<M.CapturedSource>, b: seq<M.CapturedSource>)
    requires CollisionFree(h) && a != [] && b != [] && Root(h, a) == Root(h, b)
    ensures multiset(Policies(a)) == multiset(Policies(b))
  {
    RootItems(a);
    RootItems(b);
    ValueBinds(h, LevelTree(Leaves(InIdOrder(a))), LevelTree(Leaves(InIdOrder(b))));
  }

  /** The two sources agree in every field that is policy. */
  predicate SameSourcePolicy(s: M.CapturedSource, t: M.CapturedSource) {
    && s.sourceId == t.sourceId && s.snapshot == t.snapshot && s.familyId == t.familyId && s.programId == t.programId
    && s.sourceOutputDomain == t.sourceOutputDomain && s.weight == t.weight && s.maxAgeBlocks == t.maxAgeBlocks
    && s.required == t.required
  }

  /** Field by field: whatever source has the root, its policy is found among the sources of the other. */
  lemma RootBindsFields(h: Hasher<SourcePolicy>, a: seq<M.CapturedSource>, b: seq<M.CapturedSource>, i: nat)
    returns (j: nat)
    requires CollisionFree(h) && a != [] && b != [] && Root(h, a) == Root(h, b) && i < |a|
    ensures j < |b| && SameSourcePolicy(a[i], b[j])
  {
    RootBindsPolicy(h, a, b);
    assert Policies(a)[i] in multiset(Policies(a));
    assert Policies(a)[i] in multiset(Policies(b));
    j :| 0 <= j < |b| && Policies(b)[j] == Policies(a)[i];
  }

  /** The root reads nothing else of a source: the captured state does not reach it. */
  lemma RootIgnoresState(h: Hasher<SourcePolicy>, a: seq<M.CapturedSource>, b: seq<M.CapturedSource>)
    requires a != [] && |a| == |b| && Policies(a) == Policies(b)
    ensures Root(h, a) == Root(h, b)
  {
    SortedPolicies(a, b);
  }

  predicate PolicyIdLe(p: SourcePolicy, q: SourcePolicy) { p.sourceId <= q.sourceId }

  lemma {:induction false} InsertPolicies(x: M.CapturedSource, s: seq<M.CapturedSource>)
    ensures Policies(Insert(M.SourceIdLe, x, s)) == Insert(PolicyIdLe, PolicyOf(x), Policies(s))
  {
    if s != [] && !M.SourceIdLe(x, s[0]) {
      InsertPolicies(x, s[1..]);
      assert Policies(s)[1..] == Policies(s[1..]);
    }
  }

  lemma {:induction false} SortPolicies(s: seq<M.CapturedSource>)
    ensures InIdOrder(s) == SortBy(PolicyIdLe, Policies(s))
  {
    if s != [] {
      SortPolicies(s[1..]);
      InsertPolicies(s[0], SortBy(M.SourceIdLe, s[1..]));
      assert Policies(s)[1..] == Policies(s[1..]);
    }
  }

  lemma SortedPolicies(a: seq<M.CapturedSource>, b: seq<M.CapturedSource>)
    requires Policies(a) == Policies(b)
    ensures InIdOrder(a) == InIdOrder(b)
  {
    SortPolicies(a);
    SortPolicies(b);
  }
}
