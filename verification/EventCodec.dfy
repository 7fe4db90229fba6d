/** The event accumulator: what is hashed, and what an accumulator head pins down
    (research/erc8004-completeness/reference.ts). */
module EventCodec {
  import opened Bytes
  import opened Sequences

  type U8 = x: nat | x < 256

  /** Topics are 32-byte words; an EVM log has at most four. */
  type Topics = s: seq<B256> | |s| <= 4

  datatype Event = Event(
    chainId: B256, registry: Address, blockNumber: U64, sequence: U64, codeHash: B256, eventSetVersion: B256,
    kind: U8, topics: Topics, data: seq<Byte>)

  /** keccak256 */
  type Hash = seq<Byte> -> B256

  function Ascii(s: string): seq<Byte> { seq(|s|, i requires 0 <= i < |s| => s[i] as int % 256) }

  const EVENT_TAG := Ascii("TRUSTGRAPHS_ERC8004_EVENT_V1")

  // ---- what is hashed --------------------------------------------------------

  function Words(values: seq<nat>): (r: seq<seq<Byte>>)
    ensures |r| == |values| && forall i :: 0 <= i < |r| ==> |r[i]| == 32
  {
    seq(|values|, i requires 0 <= i < |values| => ToBytes(values[i], 32))
  }

  /** The topic count, then the topics. */
  function TopicsBytes(topics: Topics): seq<Byte> { [|topics|] + Join(Words(topics)) }

  /** The topics, then the length of the data and the data. */
  function PreimageBytes(topics: Topics, data: seq<Byte>): seq<Byte>
  {
    TopicsBytes(topics) + (ToBytes(|data|, 8) + data)
  }

  /** The ten words of an event leaf. */
  function LeafWords(h: Hash, e: Event): seq<nat>
  {
    [h(EVENT_TAG), e.chainId, e.registry, e.blockNumber, e.sequence, e.codeHash, e.eventSetVersion, e.kind,
     h(TopicsBytes(e.topics)), h(e.data)]
  }

  function LeafBytes(h: Hash, e: Event): seq<Byte> { Join(Words(LeafWords(h, e))) }

  function FoldBytes(previous: B256, leaf: B256): seq<Byte> { ToBytes(previous, 32) + ToBytes(leaf, 32) }

  /** `headAfter` of the last event; zero without events. */
  function Head(h: Hash, events: seq<Event>): B256
  {
    if events == [] then 0 else h(FoldBytes(Head(h, events[..|events| - 1]), h(LeafBytes(h, events[|events| - 1]))))
  }

  /** `preimageHeadAfter` of the last event. */
  function PreimageHead(h: Hash, events: seq<Event>): B256
  {
    if events == [] then 0 else
      var e := events[|events| - 1];
      h(FoldBytes(PreimageHead(h, events[..|events| - 1]), h(PreimageBytes(e.topics, e.data))))
  }

  // ---- the encodings are injective ----------------------------------------------

  lemma WordInjective(a: nat, b: nat, width: nat)
    requires a < Pow256(width) && b < Pow256(width) && ToBytes(a, width) == ToBytes(b, width)
    ensures a == b
  {
    FromToBytes(a, width);
    FromToBytes(b, width);
  }

  ghost predicate AllWords(values: seq<nat>) { forall i :: 0 <= i < |values| ==> values[i] < Pow256(32) }

  lemma JoinedWords(values: seq<nat>)
    ensures |Join(Words(values))| == 32 * |values|
  {
    UniformStart(Words(values), 32, |values|);
    JoinLength(Words(values));
  }

  lemma JoinedWord(values: seq<nat>, i: nat)
    requires i < |values|
    ensures 32 * i + 32 <= |Join(Words(values))| && Join(Words(values))[32 * i..32 * i + 32] == ToBytes(values[i], 32)
  {
    UniformStart(Words(values), 32, i);
    JoinPart(Words(values), i);
  }

  /** Words can be read back from their concatenation. */
  lemma WordsInjective(a: seq<nat>, b: seq<nat>)
    requires AllWords(a) && AllWords(b) && |a| == |b| && Join(Words(a)) == Join(Words(b))
    ensures a == b
  {
    forall i | 0 <= i < |a| ensures a[i] == b[i] {
      JoinedWord(a, i);
      JoinedWord(b, i);
      WordInjective(a[i], b[i], 32);
    }
  }

  lemma TopicsAreWords(topics: Topics)
    ensures AllWords(topics)
  {
    WordWidths();
  }

  /** The count makes topic vectors of different length unambiguous. */
  lemma TopicsInjective(a: Topics, b: Topics)
    requires TopicsBytes(a) == TopicsBytes(b)
    ensures a == b
  {
    TopicsAreWords(a);
    TopicsAreWords(b);
    assert TopicsBytes(a)[0] == |a| && TopicsBytes(b)[0] == |b|;
    assert TopicsBytes(a)[1..] == Join(Words(a)) && TopicsBytes(b)[1..] == Join(Words(b));
    WordsInjective(a, b);
  }

  lemma TopicsLength(topics: Topics)
    ensures |TopicsBytes(topics)| == 1 + 32 * |topics|
  {
    JoinedWords(topics);
  }

  /** The source preimage pins down the topics and the data. */
  lemma PreimageInjective(a: Topics, x: seq<Byte>, b: Topics, y: seq<Byte>)
    requires PreimageBytes(a, x) == PreimageBytes(b, y)
    ensures a == b && x == y
  {
    var p, q := PreimageBytes(a, x), PreimageBytes(b, y);
    assert p[0] == |a| && q[0] == |b|;
    TopicsLength(a);
    TopicsLength(b);
    var n := 1 + 32 * |a|;
    assert p[..n] == TopicsBytes(a) && q[..n] == TopicsBytes(b);
    TopicsInjective(a, b);
    assert p[n + 8..] == x && q[n + 8..] == y;
  }

  lemma LeafWordsFit(h: Hash, e: Event)
    ensures |LeafWords(h, e)| == 10 && AllWords(LeafWords(h, e))
  {
    WordWidths();
  }

  lemma LeafInjective(h: Hash, a: Event, b: Event)
    requires LeafBytes(h, a) == LeafBytes(h, b)
    ensures LeafWords(h, a) == LeafWords(h, b)
  {
    LeafWordsFit(h, a);
    LeafWordsFit(h, b);
    WordsInjective(LeafWords(h, a), LeafWords(h, b));
  }

  /** The number in word `i` of a concatenation of words. */
  function WordIn(bytes: seq<Byte>, i: nat): nat
    requires 32 * i + 32 <= |bytes|
  {
    FromBytes(bytes[32 * i..32 * i + 32])
  }

  lemma WordReads(values: seq<nat>, i: nat)
    requires AllWords(values) && i < |values|
    ensures |Join(Words(values))| == 32 * |values| && WordIn(Join(Words(values)), i) == values[i]
  {
    JoinedWords(values);
    JoinedWord(values, i);
    FromToBytes(values[i], 32);
  }

  /** The ten words of a leaf, in their order. */
  lemma LeafLayout(h: Hash, e: Event)
    ensures var leaf := LeafBytes(h, e);
      && |leaf| == 320 && WordIn(leaf, 0) == h(EVENT_TAG) && WordIn(leaf, 1) == e.chainId
      && WordIn(leaf, 2) == e.registry && WordIn(leaf, 3) == e.blockNumber && WordIn(leaf, 4) == e.sequence
      && WordIn(leaf, 5) == e.codeHash && WordIn(leaf, 6) == e.eventSetVersion && WordIn(leaf, 7) == e.kind
      && WordIn(leaf, 8) == h(TopicsBytes(e.topics)) && WordIn(leaf, 9) == h(e.data)
  {
    LeafWordsFit(h, e);
    var words := LeafWords(h, e);
    WordReads(words, 0);
    WordReads(words, 1);
    WordReads(words, 2);
    WordReads(words, 3);
    WordReads(words, 4);
    WordReads(words, 5);
    WordReads(words, 6);
    WordReads(words, 7);
    WordReads(words, 8);
    WordReads(words, 9);
  }

  /** A fold is the head so far, then the leaf. */
  lemma FoldLayout(previous: B256, leaf: B256)
    ensures |FoldBytes(previous, leaf)| == 64
    ensures WordIn(FoldBytes(previous, leaf), 0) == previous && WordIn(FoldBytes(previous, leaf), 1) == leaf
  {
    var bytes := FoldBytes(previous, leaf);
    WordWidths();
    assert bytes[0..32] == ToBytes(previous, 32) && bytes[32..64] == ToBytes(leaf, 32);
    FromToBytes(previous, 32);
    FromToBytes(leaf, 32);
  }

  lemma FoldInjective(p: B256, a: B256, q: B256, b: B256)
    requires FoldBytes(p, a) == FoldBytes(q, b)
    ensures p == q && a == b
  {
    WordWidths();
    assert FoldBytes(p, a)[..32] == ToBytes(p, 32) && FoldBytes(q, b)[..32] == ToBytes(q, 32);
    assert FoldBytes(p, a)[32..] == ToBytes(a, 32) && FoldBytes(q, b)[32..] == ToBytes(b, 32);
    WordInjective(p, q, 32);
    WordInjective(a, b, 32);
  }

  // ---- an accumulator head pins down the events -----------------------------------

  /** Every string hashed to accumulate these events. */
  ghost function Hashed(h: Hash, events: seq<Event>): set<seq<Byte>>
  {
    if events == [] then {} else
      var front, e := events[..|events| - 1], events[|events| - 1];
      Hashed(h, front) + {TopicsBytes(e.topics), e.data, LeafBytes(h, e), FoldBytes(Head(h, front), h(LeafBytes(h, e)))}
  }

  /** No two of the strings collide. */
  ghost predicate CollisionFreeOn(h: Hash, strings: set<seq<Byte>>) {
    forall x, y :: x in strings && y in strings && h(x) == h(y) ==> x == y
  }

  ghost function Own(h: Hash, e: Event): set<seq<Byte>> { {TopicsBytes(e.topics), e.data, LeafBytes(h, e)} }

  lemma LeafPinned(h: Hash, a: Event, b: Event, strings: set<seq<Byte>>)
    requires h(LeafBytes(h, a)) == h(LeafBytes(h, b))
    requires Own(h, a) <= strings && Own(h, b) <= strings && CollisionFreeOn(h, strings)
    ensures a == b
  {
    assert LeafBytes(h, a) in Own(h, a) && LeafBytes(h, b) in Own(h, b);
    LeafInjective(h, a, b);
    var u, v := LeafWords(h, a), LeafWords(h, b);
    assert u[1] == v[1] && u[2] == v[2] && u[3] == v[3] && u[4] == v[4] && u[5] == v[5] && u[6] == v[6] && u[7] == v[7];
    assert u[8] == v[8] && u[9] == v[9];
    assert TopicsBytes(a.topics) in Own(h, a) && TopicsBytes(b.topics) in Own(h, b) && a.data in Own(h, a)
      && b.data in Own(h, b);
    TopicsInjective(a.topics, b.topics);
  }

  lemma FoldPinned(h: Hash, p: B256, a: B256, q: B256, b: B256, strings: set<seq<Byte>>)
    requires FoldBytes(p, a) in strings && FoldBytes(q, b) in strings && CollisionFreeOn(h, strings)
    requires h(FoldBytes(p, a)) == h(FoldBytes(q, b))
    ensures p == q && a == b
  {
    FoldInjective(p, a, q, b);
  }

  lemma SubsetCollisionFree(h: Hash, less: set<seq<Byte>>, more: set<seq<Byte>>)
    requires CollisionFreeOn(h, more) && less <= more
    ensures CollisionFreeOn(h, less)
  {
  }

  lemma HashedSplit(h: Hash, events: seq<Event>, strings: set<seq<Byte>>)
    requires events != [] && Hashed(h, events) <= strings
    ensures var front, e := events[..|events| - 1], events[|events| - 1];
      && Hashed(h, front) <= strings && Own(h, e) <= strings
      && FoldBytes(Head(h, front), h(LeafBytes(h, e))) in strings
      && Head(h, events) == h(FoldBytes(Head(h, front), h(LeafBytes(h, e))))
  {
    assert Hashed(h, events[..|events| - 1]) <= Hashed(h, events) && Own(h, events[|events| - 1]) <= Hashed(h, events);
  }

  lemma {:induction false} HeadPins(h: Hash, a: seq<Event>, b: seq<Event>, strings: set<seq<Byte>>)
    requires |a| == |b| && Head(h, a) == Head(h, b)
    requires Hashed(h, a) <= strings && Hashed(h, b) <= strings && CollisionFreeOn(h, strings)
    ensures a == b
    decreases |a|
  {
    if a != [] {
      var n := |a| - 1;
      var u, v, x, y := a[..n], b[..n], a[n], b[n];
      HashedSplit(h, a, strings);
      HashedSplit(h, b, strings);
      FoldPinned(h, Head(h, u), h(LeafBytes(h, x)), Head(h, v), h(LeafBytes(h, y)), strings);
      LeafPinned(h, x, y, strings);
      HeadPins(h, u, v, strings);
      Restore(a, b);
    }
  }

  lemma Restore(a: seq<Event>, b: seq<Event>)
    requires |a| == |b| > 0 && a[..|a| - 1] == b[..|b| - 1] && a[|a| - 1] == b[|b| - 1]
    ensures a == b
  {
    assert a == a[..|a| - 1] + [a[|a| - 1]] && b == b[..|b| - 1] + [b[|b| - 1]];
  }

  /** Histories of one length with one head are one history. */
  lemma HeadBinds(h: Hash, a: seq<Event>, b: seq<Event>)
    requires |a| == |b| && Head(h, a) == Head(h, b) && CollisionFreeOn(h, Hashed(h, a) + Hashed(h, b))
    ensures a == b
  {
    HeadPins(h, a, b, Hashed(h, a) + Hashed(h, b));
  }

  /** The strings hashed into the source-preimage commitment. */
  ghost function HashedPreimages(h: Hash, events: seq<Event>): set<seq<Byte>>
  {
    if events == [] then {} else
      var front, e := events[..|events| - 1], events[|events| - 1];
      HashedPreimages(h, front)
      + {PreimageBytes(e.topics, e.data), FoldBytes(PreimageHead(h, front), h(PreimageBytes(e.topics, e.data)))}
  }

  ghost predicate SamePayloads(a: seq<Event>, b: seq<Event>) {
    |a| == |b| && forall i :: 0 <= i < |a| ==> a[i].topics == b[i].topics && a[i].data == b[i].data
  }

  /** The source-preimage commitment on its own pins down every raw log payload. */
  lemma {:induction false} PreimageHeadBinds(h: Hash, a: seq<Event>, b: seq<Event>)
    requires |a| == |b| && PreimageHead(h, a) == PreimageHead(h, b)
    requires CollisionFreeOn(h, HashedPreimages(h, a) + HashedPreimages(h, b))
    ensures SamePayloads(a, b)
    decreases |a|
  {
    if a != [] {
      var n := |a| - 1;
      var p, q := PreimageBytes(a[n].topics, a[n].data), PreimageBytes(b[n].topics, b[n].data);
      assert p in HashedPreimages(h, a) && q in HashedPreimages(h, b);
      FoldInjective(PreimageHead(h, a[..n]), h(p), PreimageHead(h, b[..n]), h(q));
      PreimageInjective(a[n].topics, a[n].data, b[n].topics, b[n].data);
      SubsetCollisionFree(h, HashedPreimages(h, a[..n]) + HashedPreimages(h, b[..n]),
        HashedPreimages(h, a) + HashedPreimages(h, b));
      PreimageHeadBinds(h, a[..n], b[..n]);
      forall i | 0 <= i < n ensures a[i].topics == b[i].topics && a[i].data == b[i].data {
        assert a[..n][i] == a[i] && b[..n][i] == b[i];
      }
    }
  }

  // ---- the loop ---------------------------------------------------------------------

  /** `buildVectors`, of which the verifier reads the last two heads. */
  method BuildHeads(h: Hash, events: seq<Event>) returns (head: B256, preimages: B256)
    ensures head == Head(h, events) && preimages == PreimageHead(h, events)
  {
    head, preimages := 0, 0;
    for i := 0 to |events|
      invariant head == Head(h, events[..i]) && preimages == PreimageHead(h, events[..i])
    {
      assert events[..i + 1][..i] == events[..i];
      head := h(FoldBytes(head, h(LeafBytes(h, events[i]))));
      preimages := h(FoldBytes(preimages, h(PreimageBytes(events[i].topics, events[i].data))));
    }
    assert events[..|events|] == events;
  }
}
