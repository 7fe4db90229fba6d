/** Merkle commitments: the OpenZeppelin-layout array tree and its proofs (research/composition/reference.ts,
    research/composition/production.ts) and the source-policy root (crates/composition-core/src/codec.rs). */
module Merkle {
  import opened Ordering

  type Digest = nat

  /** A hash, as two functions: one for the preimage of a leaf, one for an ordered pair of digests. */
  datatype Hasher<!T> = Hasher(leaf: T -> Digest, pair: (Digest, Digest) -> Digest)

  /** No two preimages collide, leaf preimages and pair preimages included. */
  ghost predicate CollisionFree<T(!new)>(h: Hasher<T>) {
    && (forall x, y :: h.leaf(x) == h.leaf(y) ==> x == y)
    && (forall a, b, c, d :: h.pair(a, b) == h.pair(c, d) ==> a == c && b == d)
    && forall x, a, b :: h.leaf(x) != h.pair(a, b)
  }

  /** `hashPair`: the smaller digest first. */
  function HashPair<T>(h: Hasher<T>, a: Digest, b: Digest): Digest { if a <= b then h.pair(a, b) else h.pair(b, a) }

  // ---- hash trees -------------------------------------------------------------

  datatype Tree<T> = Leaf(item: T) | Node(left: Tree<T>, right: Tree<T>)

  function Value<T>(h: Hasher<T>, t: Tree<T>): Digest
  {
    match t
    case Leaf(item) => h.leaf(item)
    case Node(l, r) => HashPair(h, Value(h, l), Value(h, r))
  }

  ghost function Items<T>(t: Tree<T>): multiset<T>
  {
    match t
    case Leaf(item) => multiset{item}
    case Node(l, r) => Items(l) + Items(r)
  }

  /** Folding a proof into a digest. */
  function Fold<T>(h: Hasher<T>, start: Digest, proof: seq<Digest>): Digest
  {
    if proof == [] then start else HashPair(h, Fold(h, start, proof[..|proof| - 1]), proof[|proof| - 1])
  }

  /** The same digest means the same two children, in either order. */
  lemma SameChildren<T(!new)>(h: Hasher<T>, a: Digest, b: Digest, c: Digest, d: Digest)
    requires CollisionFree(h) && HashPair(h, a, b) == HashPair(h, c, d)
    ensures (a == c && b == d) || (a == d && b == c)
  {
  }

  lemma LeafIsNoPair<T(!new)>(h: Hasher<T>, x: T, a: Digest, b: Digest)
    requires CollisionFree(h)
    ensures h.leaf(x) != HashPair(h, a, b)
  {
  }

  /** Soundness: whatever folds to the value of a tree, by any proof at all, is in the tree. */
  lemma {:induction false} FoldIsMember<T(!new)>(h: Hasher<T>, t: Tree<T>, x: T, proof: seq<Digest>)
    requires CollisionFree(h) && Fold(h, h.leaf(x), proof) == Value(h, t)
    ensures x in Items(t)
    decreases t
  {
    if proof == [] {
      match t
      case Leaf(item) =>
      case Node(l, r) => LeafIsNoPair(h, x, Value(h, l), Value(h, r));
    } else {
      var n := |proof| - 1;
      var below := Fold(h, h.leaf(x), proof[..n]);
      match t
      case Leaf(item) => LeafIsNoPair(h, item, below, proof[n]);
      case Node(l, r) =>
        SameChildren(h, below, proof[n], Value(h, l), Value(h, r));
        if below == Value(h, l) { FoldIsMember(h, l, x, proof[..n]); } else { FoldIsMember(h, r, x, proof[..n]); }
    }
  }

  /** Binding: equal values hold the same items, whatever the shapes of the trees. */
  lemma {:induction false} ValueBinds<T(!new)>(h: Hasher<T>, t: Tree<T>, u: Tree<T>)
    requires CollisionFree(h) && Value(h, t) == Value(h, u)
    ensures Items(t) == Items(u)
    decreases t
  {
    match (t, u) {
      case (Leaf(x), Leaf(y)) =>
      case (Leaf(x), Node(l, r)) => LeafIsNoPair(h, x, Value(h, l), Value(h, r));
      case (Node(l, r), Leaf(y)) => LeafIsNoPair(h, y, Value(h, l), Value(h, r));
      case (Node(l, r), Node(m, s)) =>
        SameChildren(h, Value(h, l), Value(h, r), Value(h, m), Value(h, s));
        if Value(h, l) == Value(h, m) && Value(h, r) == Value(h, s) {
          ValueBinds(h, l, m);
          ValueBinds(h, r, s);
        } else {
          ValueBinds(h, l, s);
          ValueBinds(h, r, m);
        }
    }
  }

  // ---- the array layout ----------------------------------------------------------

  /** The subtree at an index of the array: leaves at the back in reverse, node `i` over `2i+1` and `2i+2`. */
  function ArrayTree<T>(items: seq<T>, i: nat): Tree<T>
    requires i < 2 * |items| - 1
    decreases 2 * |items| - i
  {
    if i >= |items| - 1 then Leaf(items[2 * |items| - 2 - i])
    else Node(ArrayTree(items, 2 * i + 1), ArrayTree(items, 2 * i + 2))
  }

  function Sibling(i: nat): (s: nat)
    requires i > 0
  {
    if i % 2 == 1 then i + 1 else i - 1
  }

  /** An index below the root has its sibling in the array: their number is odd. */
  lemma SiblingExists<T>(items: seq<T>, i: nat)
    requires 0 < i < 2 * |items| - 1
    ensures Sibling(i) < 2 * |items| - 1
  {
  }

  /** The siblings met on the way from an index up to the root. */
  function ProofFrom<T>(h: Hasher<T>, items: seq<T>, i: nat): seq<Digest>
    requires i < 2 * |items| - 1
  {
    if i == 0 then [] else
      SiblingExists(items, i);
      [Value(h, ArrayTree(items, Sibling(i)))] + ProofFrom(h, items, (i - 1) / 2)
  }

  lemma {:induction false} FoldCons<T>(h: Hasher<T>, start: Digest, p: Digest, proof: seq<Digest>)
    ensures Fold(h, start, [p] + proof) == Fold(h, HashPair(h, start, p), proof)
  {
    if proof == [] {
      assert ([p] + proof)[..0] == [];
    } else {
      var n := |proof| - 1;
      assert ([p] + proof)[..n + 1] == [p] + proof[..n];
      FoldCons(h, start, p, proof[..n]);
    }
  }

  lemma ParentTree<T>(items: seq<T>, k: nat)
    requires k < |items| - 1
    ensures ArrayTree(items, k) == Node(ArrayTree(items, 2 * k + 1), ArrayTree(items, 2 * k + 2))
  {
  }

  /** A parent's value is the hash of an index and its sibling, whichever side it is on. */
  lemma ParentValue<T>(h: Hasher<T>, items: seq<T>, i: nat)
    requires 0 < i < 2 * |items| - 1
    ensures Sibling(i) < 2 * |items| - 1
    ensures Value(h, ArrayTree(items, (i - 1) / 2))
      == HashPair(h, Value(h, ArrayTree(items, i)), Value(h, ArrayTree(items, Sibling(i))))
  {
    var parent := (i - 1) / 2;
    SiblingExists(items, i);
    ParentTree(items, parent);
    if i % 2 == 1 {
      assert i == 2 * parent + 1 && Sibling(i) == 2 * parent + 2;
    } else {
      assert i == 2 * parent + 2 && Sibling(i) == 2 * parent + 1;
      HashPairSymmetric(h, Value(h, ArrayTree(items, 2 * parent + 1)), Value(h, ArrayTree(items, 2 * parent + 2)));
    }
  }

  /** Completeness: from every index the siblings fold to the root. */
  lemma {:induction false} ProofFolds<T>(h: Hasher<T>, items: seq<T>, i: nat)
    requires i < 2 * |items| - 1
    ensures Fold(h, Value(h, ArrayTree(items, i)), ProofFrom(h, items, i)) == Value(h, ArrayTree(items, 0))
  {
    if i > 0 {
      var parent := (i - 1) / 2;
      var mine, other := Value(h, ArrayTree(items, i)), Value(h, ArrayTree(items, Sibling(i)));
      ParentValue(h, items, i);
      FoldCons(h, mine, other, ProofFrom(h, items, parent));
      ProofFolds(h, items, parent);
    }
  }

  lemma HashPairSymmetric<T>(h: Hasher<T>, a: Digest, b: Digest)
    ensures HashPair(h, a, b) == HashPair(h, b, a)
  {
  }

  /** Everything in a list of bags. */
  ghost function Bag<T>(bags: seq<multiset<T>>): multiset<T>
  {
    if bags == [] then multiset{} else Bag(bags[..|bags| - 1]) + bags[|bags| - 1]
  }

  lemma BagSnoc<T>(bags: seq<multiset<T>>, b: multiset<T>)
    ensures Bag(bags + [b]) == Bag(bags) + b
  {
    assert (bags + [b])[..|bags|] == bags;
  }

  lemma {:induction false} BagCons<T>(b: multiset<T>, bags: seq<multiset<T>>)
    ensures Bag([b] + bags) == b + Bag(bags)
  {
    if bags == [] {
      assert [b] + bags == [] + [b];
      BagSnoc([], b);
    } else {
      var n := |bags| - 1;
      assert [b] + bags == ([b] + bags[..n]) + [bags[n]];
      BagSnoc([b] + bags[..n], bags[n]);
      BagCons(b, bags[..n]);
      Associates(b, Bag(bags[..n]), bags[n]);
    }
  }

  lemma Associates<T>(a: multiset<T>, b: multiset<T>, c: multiset<T>)
    ensures a + (b + c) == (a + b) + c
  {
  }

  /** A list of bags laid out as the array: every inner bag holds its two children. */
  ghost predicate Layout<T>(bags: seq<multiset<T>>, n: nat) {
    |bags| == 2 * n - 1 && forall k :: 0 <= k < n - 1 ==> HoldsChildren(bags, k)
  }

  ghost predicate HoldsChildren<T>(bags: seq<multiset<T>>, k: nat) {
    2 * k + 2 < |bags| && bags[k] == bags[2 * k + 1] + bags[2 * k + 2]
  }

  lemma Slices<T>(bags: seq<multiset<T>>, k: nat)
    requires 2 * k + 2 < |bags|
    ensures bags[k..2 * k + 1] == [bags[k]] + bags[k + 1..2 * k + 1]
    ensures bags[k + 1..2 * k + 3] == (bags[k + 1..2 * k + 1] + [bags[2 * k + 1]]) + [bags[2 * k + 2]]
  {
  }

  lemma Commutes<T>(a: multiset<T>, b: multiset<T>)
    ensures a + b == b + a
  {
  }

  /** Replacing two neighbours by their parent keeps what the frontier holds. */
  lemma FrontierStep<T>(bags: seq<multiset<T>>, k: nat)
    requires HoldsChildren(bags, k)
    ensures Bag(bags[k..2 * k + 1]) == Bag(bags[k + 1..2 * k + 3])
  {
    var rest, l, r := bags[k + 1..2 * k + 1], bags[2 * k + 1], bags[2 * k + 2];
    Slices(bags, k);
    BagCons(bags[k], rest);
    BagSnoc(rest, l);
    BagSnoc(rest + [l], r);
    Associates(Bag(rest), l, r);
    Commutes(Bag(rest), bags[k]);
  }

  /** The bags from `k` to `2k` hold what the last `n` hold. */
  lemma {:induction false} FrontierIsBack<T>(bags: seq<multiset<T>>, n: nat, k: nat)
    requires Layout(bags, n) && k < n
    ensures Bag(bags[k..2 * k + 1]) == Bag(bags[n - 1..2 * n - 1])
    decreases n - k
  {
    if k < n - 1 {
      FrontierIsBack(bags, n, k + 1);
      FrontierStep(bags, k);
    }
  }

  ghost function NodeBags<T>(items: seq<T>): (r: seq<multiset<T>>)
    requires items != []
    ensures |r| == 2 * |items| - 1
  {
    seq(2 * |items| - 1, i requires 0 <= i < 2 * |items| - 1 => Items(ArrayTree(items, i)))
  }

  lemma NodeLayout<T>(items: seq<T>)
    requires items != []
    ensures Layout(NodeBags(items), |items|)
  {
    forall k | 0 <= k < |items| - 1 ensures HoldsChildren(NodeBags(items), k) {
      NodeHoldsChildren(items, k);
    }
  }

  lemma NodeHoldsChildren<T>(items: seq<T>, k: nat)
    requires k < |items| - 1
    ensures HoldsChildren(NodeBags(items), k)
  {
    BagOf(items, k);
    BagOf(items, 2 * k + 1);
    BagOf(items, 2 * k + 2);
    ParentItems(items, k);
  }

  lemma BagOf<T>(items: seq<T>, k: nat)
    requires k < 2 * |items| - 1
    ensures NodeBags(items)[k] == Items(ArrayTree(items, k))
  {
  }

  lemma ParentItems<T>(items: seq<T>, k: nat)
    requires k < |items| - 1
    ensures Items(ArrayTree(items, k)) == Items(ArrayTree(items, 2 * k + 1)) + Items(ArrayTree(items, 2 * k + 2))
  {
    ParentTree(items, k);
  }

  lemma SuffixCons<T>(items: seq<T>, p: nat)
    requires p < |items|
    ensures multiset(items[p..]) == multiset(items[p + 1..]) + multiset{items[p]}
  {
    assert items[p..] == [items[p]] + items[p + 1..];
  }

  /** The back of the layout holds the items, in reverse. */
  ghost predicate BackSingles<T>(bags: seq<multiset<T>>, items: seq<T>) {
    |bags| == 2 * |items| - 1 && forall p :: 0 <= p < |items| ==> bags[2 * |items| - 2 - p] == multiset{items[p]}
  }

  lemma NodesBack<T>(items: seq<T>)
    requires items != []
    ensures BackSingles(NodeBags(items), items)
  {
    forall p | 0 <= p < |items| ensures NodeBags(items)[2 * |items| - 2 - p] == multiset{items[p]} {
      assert ArrayTree(items, 2 * |items| - 2 - p) == Leaf(items[p]);
    }
  }

  lemma OneMoreBag<T>(bags: seq<multiset<T>>, from: nat, to: nat)
    requires from <= to < |bags|
    ensures Bag(bags[from..to + 1]) == Bag(bags[from..to]) + bags[to]
  {
    assert bags[from..to + 1] == bags[from..to] + [bags[to]];
    BagSnoc(bags[from..to], bags[to]);
  }

  lemma {:induction false} BackIsItems<T>(bags: seq<multiset<T>>, items: seq<T>, from: nat, p: nat)
    requires BackSingles(bags, items) && p <= |items| && from == |items| - 1
    ensures Bag(bags[from..2 * |items| - 1 - p]) == multiset(items[p..])
    decreases |items| - p
  {
    if p < |items| {
      BackIsItems(bags, items, from, p + 1);
      SuffixCons(items, p);
      OneMoreBag(bags, from, 2 * |items| - 2 - p);
    } else {
      assert bags[from..from] == [] && items[p..] == [];
    }
  }

  lemma BackIsAll<T>(bags: seq<multiset<T>>, items: seq<T>)
    requires BackSingles(bags, items) && items != []
    ensures Bag(bags[|items| - 1..2 * |items| - 1]) == multiset(items)
  {
    BackIsItems(bags, items, |items| - 1, 0);
    assert items[0..] == items;
  }

  lemma FirstBag<T>(bags: seq<multiset<T>>)
    requires bags != []
    ensures Bag(bags[0..1]) == bags[0]
  {
    assert bags[0..1] == [] + [bags[0]];
    BagSnoc([], bags[0]);
  }

  lemma LayoutRoot<T>(bags: seq<multiset<T>>, items: seq<T>)
    requires items != [] && Layout(bags, |items|) && BackSingles(bags, items)
    ensures bags[0] == multiset(items)
  {
    FrontierIsBack(bags, |items|, 0);
    BackIsAll(bags, items);
    FirstBag(bags);
  }

  /** The array tree holds exactly the items. */
  lemma ArrayTreeItems<T>(items: seq<T>)
    requires items != []
    ensures Items(ArrayTree(items, 0)) == multiset(items)
  {
    NodeLayout(items);
    NodesBack(items);
    LayoutRoot(NodeBags(items), items);
  }

  // ---- level by level, with promotion of an odd node ---------------------------------

  function Paired<T>(level: seq<Tree<T>>): (r: seq<Tree<T>>)
    ensures |r| == (|level| + 1) / 2
  {
    if level == [] then [] else if |level| == 1 then level
    else [Node(level[0], level[1])] + Paired(level[2..])
  }

  function LevelTree<T>(level: seq<Tree<T>>): Tree<T>
    requires level != []
    decreases |level|
  {
    if |level| == 1 then level[0] else LevelTree(Paired(level))
  }

  ghost function LevelItems<T>(level: seq<Tree<T>>): multiset<T>
  {
    if level == [] then multiset{} else Items(level[0]) + LevelItems(level[1..])
  }

  lemma {:induction false} PairedItems<T>(level: seq<Tree<T>>)
    ensures LevelItems(Paired(level)) == LevelItems(level)
  {
    if |level| >= 2 {
      PairedItems(level[2..]);
      assert level[1..][1..] == level[2..];
      assert Paired(level)[1..] == Paired(level[2..]);
    }
  }

  lemma {:induction false} LevelTreeItems<T>(level: seq<Tree<T>>)
    requires level != []
    ensures Items(LevelTree(level)) == LevelItems(level)
    decreases |level|
  {
    if |level| > 1 {
      PairedItems(level);
      LevelTreeItems(Paired(level));
    }
  }

  function Leaves<T>(items: seq<T>): (r: seq<Tree<T>>)
    ensures |r| == |items|
  {
    seq(|items|, i requires 0 <= i < |items| => Leaf(items[i]))
  }

  lemma {:induction false} LeavesItems<T>(items: seq<T>)
    ensures LevelItems(Leaves(items)) == multiset(items)
  {
    if items != [] {
      assert Leaves(items)[1..] == Leaves(items[1..]);
      LeavesItems(items[1..]);
      assert items == [items[0]] + items[1..];
    }
  }

  // ---- the digests of the leaves, sorted ------------------------------------------------

  function Digests<T>(h: Hasher<T>, items: seq<T>): (r: seq<Digest>)
    ensures |r| == |items|
  {
    if items == [] then [] else [h.leaf(items[0])] + Digests(h, items[1..])
  }

  lemma {:induction false} DigestAt<T>(h: Hasher<T>, items: seq<T>, i: nat)
    requires i < |items|
    ensures Digests(h, items)[i] == h.leaf(items[i])
  {
    if i > 0 { DigestAt(h, items[1..], i - 1); }
  }

  function ByDigest<T>(h: Hasher<T>): (T, T) -> bool { (x, y) => h.leaf(x) <= h.leaf(y) }

  /** The items in the order of their digests. */
  function Arranged<T>(h: Hasher<T>, items: seq<T>): seq<T> { SortBy(ByDigest(h), items) }

  lemma {:induction false} InsertDigests<T>(h: Hasher<T>, x: T, items: seq<T>)
    ensures Digests(h, Insert(ByDigest(h), x, items)) == Insert(NatLe, h.leaf(x), Digests(h, items))
  {
    if items == [] {
      assert ([x] + items)[1..] == [];
    } else if ByDigest(h)(x, items[0]) {
      assert ([x] + items)[1..] == items;
    } else {
      InsertDigests(h, x, items[1..]);
      var t := Insert(ByDigest(h), x, items[1..]);
      assert ([items[0]] + t)[1..] == t;
      assert Digests(h, items)[1..] == Digests(h, items[1..]);
    }
  }

  /** Sorting the digests is the same as arranging the items. */
  lemma {:induction false} SortedDigests<T>(h: Hasher<T>, items: seq<T>)
    ensures SortBy(NatLe, Digests(h, items)) == Digests(h, Arranged(h, items))
  {
    if items != [] {
      SortedDigests(h, items[1..]);
      InsertDigests(h, items[0], Arranged(h, items[1..]));
      assert Digests(h, items)[1..] == Digests(h, items[1..]);
    }
  }

  // ---- the output root and its proofs ---------------------------------------------------

  /** `outputRoot`: zero without entries. */
  function Root<T>(h: Hasher<T>, entries: seq<T>): Digest
  {
    if entries == [] then 0 else Value(h, ArrayTree(Arranged(h, entries), 0))
  }

  ghost predicate Filled<T>(h: Hasher<T>, items: seq<T>, tree: array<Digest>, from: int)
    reads tree
  {
    tree.Length == 2 * |items| - 1 && forall i :: 0 <= i < tree.Length && from <= i ==>
      tree[i] == Value(h, ArrayTree(items, i))
  }

  method PlaceLeaves<T>(ghost h: Hasher<T>, ghost items: seq<T>, leaves: seq<Digest>, tree: array<Digest>)
    requires items != [] && leaves == Digests(h, items) && tree.Length == 2 * |items| - 1
    modifies tree
    ensures Filled(h, items, tree, |items| - 1)
  {
    for index := 0 to |leaves|
      invariant Filled(h, items, tree, 2 * |items| - 1 - index)
    {
      DigestAt(h, items, index);
      tree[tree.Length - 1 - index] := leaves[index];
    }
  }

  method HashUp<T>(h: Hasher<T>, ghost items: seq<T>, tree: array<Digest>)
    requires items != [] && Filled(h, items, tree, |items| - 1)
    modifies tree
    ensures Filled(h, items, tree, 0)
  {
    var index: int := (tree.Length + 1) / 2 - 2;
    while index >= 0
      invariant -1 <= index <= |items| - 2
      invariant Filled(h, items, tree, index + 1)
    {
      tree[index] := HashPair(h, tree[2 * index + 1], tree[2 * index + 2]);
      index := index - 1;
    }
  }

  /** `outputRoot`. */
  method OutputRoot<T>(h: Hasher<T>, entries: seq<T>) returns (root: Digest)
    ensures root == Root(h, entries)
  {
    var leaves := Digests(h, entries);
    if |leaves| == 0 { return 0; }
    leaves := SortBy(NatLe, leaves);
    SortedDigests(h, entries);
    ghost var items := Arranged(h, entries);
    if |leaves| == 1 {
      DigestAt(h, items, 0);
      return leaves[0];
    }
    var tree := new Digest[2 * |leaves| - 1];
    PlaceLeaves(h, items, leaves, tree);
    HashUp(h, items, tree);
    root := tree[0];
  }

  /** The walk from an index up to the root. */
  method WalkUp<T>(ghost h: Hasher<T>, ghost items: seq<T>, tree: array<Digest>, start: nat)
    returns (proof: seq<Digest>)
    requires items != [] && Filled(h, items, tree, 0) && start < tree.Length
    ensures proof == ProofFrom(h, items, start)
  {
    var index := start;
    proof := [];
    while index > 0
      invariant 0 <= index < tree.Length
      invariant proof + ProofFrom(h, items, index) == ProofFrom(h, items, start)
    {
      SiblingExists(items, index);
      proof := proof + [tree[Sibling(index)]];
      index := (index - 1) / 2;
    }
  }

  /** The first leaf position with the wanted digest. */
  method FindLeaf(tree: array<Digest>, first: nat, wanted: Digest) returns (index: nat)
    requires exists i :: first <= i < tree.Length && tree[i] == wanted
    ensures first <= index < tree.Length && tree[index] == wanted
  {
    index := first;
    while tree[index] != wanted
      invariant first <= index < tree.Length
      invariant forall i :: first <= i < index ==> tree[i] != wanted
      decreases tree.Length - index
    {
      index := index + 1;
    }
  }

  /** `outputProof`: the proof of one entry folds to the root. */
  method OutputProof<T>(h: Hasher<T>, output: seq<T>, sample: nat) returns (leaf: Digest, proof: seq<Digest>)
    requires sample < |output|
    ensures leaf == h.leaf(output[sample]) && Fold(h, leaf, proof) == Root(h, output)
  {
    leaf := h.leaf(output[sample]);
    var leaves := SortBy(NatLe, Digests(h, output));
    SortedDigests(h, output);
    ghost var items := Arranged(h, output);
    if |leaves| == 1 {
      assert items == output;
      return leaf, [];
    }
    var tree := new Digest[2 * |leaves| - 1];
    PlaceLeaves(h, items, leaves, tree);
    HashUp(h, items, tree);
    SampleHasLeaf(h, output, sample, tree);
    var index := FindLeaf(tree, |leaves| - 1, leaf);
    proof := WalkUp(h, items, tree, index);
    ProofFolds(h, items, index);
  }

  lemma SampleHasLeaf<T>(h: Hasher<T>, output: seq<T>, sample: nat, tree: array<Digest>)
    requires sample < |output| && Filled(h, Arranged(h, output), tree, 0)
    ensures exists i :: |output| - 1 <= i < tree.Length && tree[i] == h.leaf(output[sample])
  {
    var items := Arranged(h, output);
    SortMembers(ByDigest(h), output);
    assert output[sample] in items;
    var k :| 0 <= k < |items| && items[k] == output[sample];
    var i := 2 * |items| - 2 - k;
    assert tree[i] == Value(h, ArrayTree(items, i));
  }

  lemma RootItems<T>(h: Hasher<T>, entries: seq<T>)
    requires entries != []
    ensures Items(ArrayTree(Arranged(h, entries), 0)) == multiset(entries)
  {
    SortElements(ByDigest(h), entries);
    ArrayTreeItems(Arranged(h, entries));
  }

  /** Only an entry of the output can be proved into its root. */
  lemma ProofSound<T(!new)>(h: Hasher<T>, entries: seq<T>, x: T, proof: seq<Digest>)
    requires CollisionFree(h) && entries != [] && Fold(h, h.leaf(x), proof) == Root(h, entries)
    ensures x in entries
  {
    RootItems(h, entries);
    FoldIsMember(h, ArrayTree(Arranged(h, entries), 0), x, proof);
    assert x in multiset(entries);
  }

  /** The root commits to the entries and to nothing else: equal exactly for rearrangements. */
  lemma RootBinds<T(!new)>(h: Hasher<T>, a: seq<T>, b: seq<T>)
    requires CollisionFree(h) && a != [] && b != []
    ensures Root(h, a) == Root(h, b) <==> multiset(a) == multiset(b)
  {
    RootItems(h, a);
    RootItems(h, b);
    if Root(h, a) == Root(h, b) {
      ValueBinds(h, ArrayTree(Arranged(h, a), 0), ArrayTree(Arranged(h, b), 0));
    }
    if multiset(a) == multiset(b) { SameArrangement(h, a, b); }
  }

  lemma SameArrangement<T(!new)>(h: Hasher<T>, a: seq<T>, b: seq<T>)
    requires CollisionFree(h) && multiset(a) == multiset(b)
    ensures Arranged(h, a) == Arranged(h, b)
  {
    SortElements(ByDigest(h), a);
    SortElements(ByDigest(h), b);
    SortSorted(ByDigest(h), a);
    SortSorted(ByDigest(h), b);
    SortedUnique(ByDigest(h), Arranged(h, a), Arranged(h, b));
  }
}
