/** Contribution record payloads in the Solidity contract ABI: crates/contributions-core/src/records.rs. */
module Records {
  import opened Wrappers
  import opened Bytes
  import opened Sequences
  import opened Totals

  const U32_LIMIT: nat := 0x1_0000_0000
  const ADDRESS_LIMIT: nat := 0x1_0000_0000_0000_0000_0000_0000_0000_0000_0000_0000

  type U32 = x: nat | x < 0x1_0000_0000

  datatype ClaimPayload = ClaimPayload(contentHash: nat, contributors: seq<nat>, shares: seq<nat>)

  /** A response or a valuation: a claim and a small number. */
  datatype ScorePayload = ScorePayload(claim: B256, score: Byte)

  // ---- words -------------------------------------------------------------

  predicate InBounds(data: seq<Byte>, slot: nat) { 32 * slot + 32 <= |data| }

  function Slot(data: seq<Byte>, slot: nat): (w: seq<Byte>)
    requires InBounds(data, slot)
    ensures |w| == 32
  {
    data[32 * slot..32 * slot + 32]
  }

  /** `word`. */
  function Word(data: seq<Byte>, slot: nat): Option<seq<Byte>>
  {
    if InBounds(data, slot) then Some(Slot(data, slot)) else None
  }

  /** `word_as_u8`, `word_as_u32`, `word_as_address`: the leading bytes must be zero. */
  function Clean(w: seq<Byte>, lead: nat): Option<nat>
    requires lead <= |w|
  {
    if forall i :: 0 <= i < lead ==> w[i] == 0 then Some(FromBytes(w[lead..])) else None
  }

  /** `word_as_usize`. */
  function AsUsize(w: seq<Byte>): Option<nat>
  {
    if FromBytes(w) >= U32_LIMIT then None else Some(FromBytes(w))
  }

  lemma {:induction false} FromBytesConcat(a: seq<Byte>, b: seq<Byte>)
    ensures FromBytes(a + b) == FromBytes(a) * Pow256(|b|) + FromBytes(b)
  {
    if b == [] {
      assert a + b == a;
    } else {
      var n := |b| - 1;
      assert (a + b)[..|a + b| - 1] == a + b[..n];
      FromBytesConcat(a, b[..n]);
      ShiftByte(FromBytes(a), Pow256(n));
    }
  }

  lemma ShiftByte(a: nat, p: nat)
    ensures 256 * (a * p) == a * (256 * p)
  {
  }

  lemma {:induction false} ZeroBytes(s: seq<Byte>)
    ensures FromBytes(s) == 0 <==> forall i :: 0 <= i < |s| ==> s[i] == 0
  {
    if s != [] { ZeroBytes(s[..|s| - 1]); }
  }

  lemma AtLeast(a: nat, p: nat)
    requires a > 0
    ensures a * p >= p
  {
  }

  /** A clean word is one whose number fits the narrower type. */
  lemma CleanMeaning(w: seq<Byte>, lead: nat)
    requires lead <= |w|
    ensures Clean(w, lead) == if FromBytes(w) < Pow256(|w| - lead) then Some(FromBytes(w)) else None
  {
    var front, back := w[..lead], w[lead..];
    assert w == front + back;
    FromBytesConcat(front, back);
    ZeroBytes(front);
    ToFromBytes(back);
    if FromBytes(front) > 0 { AtLeast(FromBytes(front), Pow256(|back|)); }
  }

  function Num(data: seq<Byte>, slot: nat): nat
    requires InBounds(data, slot)
  {
    FromBytes(Slot(data, slot))
  }

  predicate Fits(data: seq<Byte>, slot: nat, limit: nat) { InBounds(data, slot) && Num(data, slot) < limit }

  // ---- the claim layout ----------------------------------------------------

  /** A length word and that many bytes lie in bounds at an aligned offset. */
  predicate DynamicOk(data: seq<Byte>, offset: nat) {
    offset % 32 == 0 && Fits(data, offset / 32, U32_LIMIT) && offset + 32 + Num(data, offset / 32) <= |data|
  }

  predicate LengthOk(data: seq<Byte>, offset: nat) { offset % 32 == 0 && Fits(data, offset / 32, U32_LIMIT) }

  predicate ItemFits(data: seq<Byte>, first: nat, i: nat, limit: nat) { Fits(data, first + i, limit) }

  predicate ItemsFit(data: seq<Byte>, first: nat, n: nat, limit: nat) {
    forall i :: 0 <= i < n ==> ItemFits(data, first, i, limit)
  }

  function Items(data: seq<Byte>, first: nat, n: nat, limit: nat): (r: seq<nat>)
    requires ItemsFit(data, first, n, limit)
    ensures |r| == n && forall i :: 0 <= i < n ==> r[i] < limit
  {
    if n == 0 then [] else
      assert ItemFits(data, first, n - 1, limit);
      Items(data, first, n - 1, limit) + [Num(data, first + (n - 1))]
  }

  predicate HeadOk(data: seq<Byte>) {
    && Fits(data, 0, U32_LIMIT) && InBounds(data, 1) && Fits(data, 2, U32_LIMIT) && Fits(data, 3, U32_LIMIT)
    && Fits(data, 4, U32_LIMIT)
  }

  predicate ArraysOk(data: seq<Byte>)
    requires HeadOk(data)
  {
    var (c, s) := (Num(data, 3), Num(data, 4));
    && LengthsOk(data, c, s)
    && ItemsFit(data, c / 32 + 1, Num(data, c / 32), ADDRESS_LIMIT)
    && ItemsFit(data, s / 32 + 1, Num(data, c / 32), U32_LIMIT)
  }

  predicate AllZero(values: seq<nat>) { forall i :: 0 <= i < |values| ==> values[i] == 0 }

  function Contributors(data: seq<Byte>): (r: seq<nat>)
    requires HeadOk(data) && ArraysOk(data)
    ensures |r| == Num(data, Num(data, 3) / 32)
  {
    Items(data, Num(data, 3) / 32 + 1, Num(data, Num(data, 3) / 32), ADDRESS_LIMIT)
  }

  function Shares(data: seq<Byte>): (r: seq<nat>)
    requires HeadOk(data) && ArraysOk(data)
    ensures |r| == Num(data, Num(data, 3) / 32)
  {
    Items(data, Num(data, 4) / 32 + 1, Num(data, Num(data, 3) / 32), U32_LIMIT)
  }

  /** What counts as a claim payload, and what it says. */
  function Claim(data: seq<Byte>): Option<ClaimPayload>
  {
    if !HeadOk(data) || !DynamicOk(data, Num(data, 0)) || !DynamicOk(data, Num(data, 2))
       || !ArraysOk(data) || AllZero(Shares(data)) then None
    else Some(ClaimPayload(Num(data, 1), Contributors(data), Shares(data)))
  }

  lemma SlotFits(data: seq<Byte>, slot: nat)
    requires InBounds(data, slot)
    ensures Num(data, slot) < 0x1_0000_0000_0000_0000_0000_0000_0000_0000_0000_0000_0000_0000_0000_0000_0000_0000
  {
    ToFromBytes(Slot(data, slot));
    WordWidths();
  }

  // ---- the decoder -----------------------------------------------------------

  method ReadUsize(data: seq<Byte>, slot: nat) returns (r: Option<nat>)
    ensures r == if Fits(data, slot, U32_LIMIT) then Some(Num(data, slot)) else None
  {
    var w := Word(data, slot);
    if w.None? { return None; }
    r := AsUsize(w.value);
  }

  /** `check_dynamic_bytes`. */
  method CheckDynamicBytes(data: seq<Byte>, offset: nat) returns (ok: bool)
    ensures ok == DynamicOk(data, offset)
  {
    if offset % 32 != 0 { return false; }
    var len := ReadUsize(data, offset / 32);
    if len.None? { return false; }
    var end := offset + 32 + len.value;
    ok := !(|data| < end);
  }

  /** The loop over the words of an array; a dirty or missing word ends it. */
  method ReadItems(data: seq<Byte>, first: nat, n: nat, lead: nat, ghost limit: nat) returns (r: Option<seq<nat>>)
    requires lead <= 32 && limit == Pow256(32 - lead)
    ensures r == if ItemsFit(data, first, n, limit) then Some(Items(data, first, n, limit)) else None
  {
    var items: seq<nat> := [];
    for i := 0 to n
      invariant ItemsFit(data, first, i, limit)
      invariant items == Items(data, first, i, limit)
    {
      assert ItemsFit(data, first, n, limit) ==> ItemFits(data, first, i, limit);
      var w := Word(data, first + i);
      if w.None? { return None; }
      CleanMeaning(w.value, lead);
      var item := Clean(w.value, lead);
      if item.None? { return None; }
      items := items + [item.value];
    }
    r := Some(items);
  }

  predicate LengthsOk(data: seq<Byte>, c: nat, s: nat) {
    LengthOk(data, c) && LengthOk(data, s) && Num(data, c / 32) == Num(data, s / 32) > 0
  }

  /** The part of `decode_claim` that reads the two array lengths. */
  method DecodeLengths(data: seq<Byte>, c: nat, s: nat) returns (n: Option<nat>)
    ensures n == if LengthsOk(data, c, s) then Some(Num(data, c / 32)) else None
  {
    if c % 32 != 0 || s % 32 != 0 { return None; }
    n := ReadUsize(data, c / 32);
    if n.None? { return None; }
    var m := ReadUsize(data, s / 32);
    if m.None? { return None; }
    if n != m || n.value == 0 { return None; }
  }

  /** The part of `decode_claim` that reads the two arrays. */
  method DecodeArrays(data: seq<Byte>, contentHash: nat, c: nat, s: nat) returns (r: Option<ClaimPayload>)
    requires HeadOk(data) && c == Num(data, 3) && s == Num(data, 4)
    ensures r == if !ArraysOk(data)
      || AllZero(Shares(data)) then None else Some(ClaimPayload(contentHash, Contributors(data), Shares(data)))
  {
    WordWidths();
    var n := DecodeLengths(data, c, s);
    if n.None? { return None; }
    var contributors := ReadItems(data, c / 32 + 1, n.value, 12, ADDRESS_LIMIT);
    if contributors.None? { return None; }
    var shares := ReadItems(data, s / 32 + 1, n.value, 28, U32_LIMIT);
    if shares.None? { return None; }
    if AllZero(shares.value) { return None; }
    r := Some(ClaimPayload(contentHash, contributors.value, shares.value));
  }

  /** `decode_claim`. */
  method DecodeClaim(data: seq<Byte>) returns (r: Option<ClaimPayload>)
    ensures r == Claim(data)
  {
    WordWidths();
    var title := ReadUsize(data, 0);
    if title.None? { return None; }
    var contentHash := Word(data, 1);
    if contentHash.None? { return None; }
    var uri := ReadUsize(data, 2);
    if uri.None? { return None; }
    var c := ReadUsize(data, 3);
    if c.None? { return None; }
    var s := ReadUsize(data, 4);
    if s.None? { return None; }
    var titleOk := CheckDynamicBytes(data, title.value);
    if !titleOk { return None; }
    var uriOk := CheckDynamicBytes(data, uri.value);
    if !uriOk { return None; }
    r := DecodeArrays(data, FromBytes(contentHash.value), c.value, s.value);
  }

  // ---- the bound on the shares -------------------------------------------------

  ghost predicate AllBelow(values: seq<nat>, limit: nat) { forall i :: 0 <= i < |values| ==> values[i] < limit }

  lemma SharesBound(shares: seq<nat>)
    requires |shares| < U32_LIMIT && AllBelow(shares, U32_LIMIT)
    ensures 0 <= Sum(shares) < 0x1_0000_0000_0000_0000
  {
    var most := seq(|shares|, _ => U32_LIMIT - 1);
    var none := seq(|shares|, _ => 0);
    SumMonotone(none, shares);
    SumConstant(none, 0);
    SumMonotone(shares, most);
    SumConstant(most, U32_LIMIT - 1);
    ProductBound(|shares|);
  }

  lemma ProductBound(n: nat)
    requires n < U32_LIMIT
    ensures n * (U32_LIMIT - 1) < 0x1_0000_0000_0000_0000
  {
  }

  /** Whatever the bytes, a decoded claim has one share a contributor, and its shares
      add up to a positive number of 64 bits. */
  lemma DecodedShares(data: seq<Byte>)
    requires Claim(data).Some?
    ensures var p := Claim(data).value;
      && |p.contributors| == |p.shares| > 0 && AllBelow(p.contributors, ADDRESS_LIMIT) && AllBelow(p.shares, U32_LIMIT)
      && 0 < Sum(p.shares) < 0x1_0000_0000_0000_0000
  {
    var shares := Claim(data).value.shares;
    SharesBound(shares);
    var i :| 0 <= i < |shares| && shares[i] != 0;
    SumAtLeastTerm(shares, i);
  }

  // ---- the encoder -----------------------------------------------------------

  function Zeros(n: nat): seq<Byte> { seq(n, _ => 0) }

  function WordOf(value: nat, width: nat): (w: seq<Byte>)
    requires width <= 32
    ensures |w| == 32
  {
    Zeros(32 - width) + ToBytes(value, width)
  }

  function Padded(b: seq<Byte>): seq<Byte> { b + Zeros((32 - |b| % 32) % 32) }

  function DynamicBlock(b: seq<Byte>): seq<Byte> { WordOf(|b|, 8) + Padded(b) }

  function Words(values: seq<nat>, width: nat): (r: seq<seq<Byte>>)
    requires width <= 32
    ensures |r| == |values| && forall i :: 0 <= i < |r| ==> |r[i]| == 32
  {
    seq(|values|, i requires 0 <= i < |values| => WordOf(values[i], width))
  }

  function ArrayBlock(values: seq<nat>, width: nat): seq<Byte>
    requires width <= 32
  {
    WordOf(|values|, 8) + Join(Words(values, width))
  }

  function BlockSize(length: nat): nat { 32 + (length + 31) / 32 * 32 }

  function UriOffset(title: seq<Byte>): nat { 160 + BlockSize(|title|) }
  function ContributorsOffset(title: seq<Byte>, uri: seq<Byte>): nat { UriOffset(title) + BlockSize(|uri|) }
  function SharesOffset(title: seq<Byte>, uri: seq<Byte>, contributors: seq<Address>): nat {
    ContributorsOffset(title, uri) + (32 + |contributors| * 32)
  }

  function Head(title: seq<Byte>, contentHash: B256, uri: seq<Byte>, contributors: seq<Address>): (r: seq<seq<Byte>>)
    ensures |r| == 5 && forall i :: 0 <= i < |r| ==> |r[i]| == 32
  {
    [WordOf(160, 8), ToBytes(contentHash, 32), WordOf(UriOffset(title), 8),
     WordOf(ContributorsOffset(title, uri), 8), WordOf(SharesOffset(title, uri, contributors), 8)]
  }

  function Blocks(title: seq<Byte>, contentHash: B256, uri: seq<Byte>, contributors: seq<Address>,
                  shares: seq<U32>): (r: seq<seq<Byte>>)
    ensures |r| == 5
  {
    [Join(Head(title, contentHash, uri, contributors)), DynamicBlock(title), DynamicBlock(uri),
     ArrayBlock(contributors, 20), ArrayBlock(shares, 4)]
  }

  function Encoded(title: seq<Byte>, contentHash: B256, uri: seq<Byte>, contributors: seq<Address>,
                   shares: seq<U32>): seq<Byte>
  {
    Join(Blocks(title, contentHash, uri, contributors, shares))
  }

  method AppendItems(out: seq<Byte>, values: seq<nat>, width: nat) returns (r: seq<Byte>)
    requires width <= 32
    ensures r == out + ArrayBlock(values, width)
  {
    r := out + WordOf(|values|, 8);
    var words := Words(values, width);
    for i := 0 to |values|
      invariant r == out + (WordOf(|values|, 8) + Join(words[..i]))
    {
      assert words[..i + 1][..i] == words[..i];
      r := r + WordOf(values[i], width);
    }
    assert words[..|values|] == words;
  }

  lemma JoinFive(a: seq<Byte>, b: seq<Byte>, c: seq<Byte>, d: seq<Byte>, e: seq<Byte>)
    ensures Join([a, b, c, d, e]) == a + b + c + d + e
  {
    JoinSnoc([], a);
    JoinSnoc([a], b);
    JoinSnoc([a, b], c);
    JoinSnoc([a, b, c], d);
    JoinSnoc([a, b, c, d], e);
    assert [] + [a] == [a] && [a] + [b] == [a, b] && [a, b] + [c] == [a, b, c] && [a, b, c] + [d] == [a, b, c, d];
    assert [a, b, c, d] + [e] == [a, b, c, d, e];
  }

  method EncodeHead(title: seq<Byte>, contentHash: B256, uri: seq<Byte>, contributors: seq<Address>)
    returns (out: seq<Byte>)
    ensures out == Join(Head(title, contentHash, uri, contributors))
  {
    var titleOff := 5 * 32;
    var uriOff := titleOff + BlockSize(|title|);
    var contributorsOff := uriOff + BlockSize(|uri|);
    var sharesOff := contributorsOff + (32 + |contributors| * 32);
    out := Join([WordOf(titleOff, 8), ToBytes(contentHash, 32), WordOf(uriOff, 8), WordOf(contributorsOff, 8),
      WordOf(sharesOff, 8)]);
  }

  /** `encode_claim`. */
  method EncodeClaim(title: seq<Byte>, contentHash: B256, uri: seq<Byte>, contributors: seq<Address>, shares: seq<U32>)
    returns (out: seq<Byte>)
    ensures out == Encoded(title, contentHash, uri, contributors, shares)
  {
    out := EncodeHead(title, contentHash, uri, contributors);
    JoinFive(out, DynamicBlock(title), DynamicBlock(uri), ArrayBlock(contributors, 20), ArrayBlock(shares, 4));
    out := out + DynamicBlock(title);
    out := out + DynamicBlock(uri);
    out := AppendItems(out, contributors, 20);
    out := AppendItems(out, shares, 4);
  }

  // ---- the round trip --------------------------------------------------------

  lemma ZeroTimes(z: nat, p: nat)
    requires z == 0
    ensures z * p == 0
  {
  }

  lemma WordOfValue(value: nat, width: nat)
    requires width <= 32 && value < Pow256(width)
    ensures FromBytes(WordOf(value, width)) == value
  {
    FromToBytes(value, width);
    FromBytesConcat(Zeros(32 - width), ToBytes(value, width));
    ZeroBytes(Zeros(32 - width));
    ZeroTimes(FromBytes(Zeros(32 - width)), Pow256(width));
  }

  lemma WordsLength(words: seq<seq<Byte>>)
    requires forall j :: 0 <= j < |words| ==> |words[j]| == 32
    ensures |Join(words)| == 32 * |words|
  {
    UniformStart(words, 32, |words|);
    JoinLength(words);
  }

  lemma SlotOfWords(words: seq<seq<Byte>>, i: nat)
    requires i < |words| && forall j :: 0 <= j < |words| ==> |words[j]| == 32
    ensures InBounds(Join(words), i) && Slot(Join(words), i) == words[i]
  {
    UniformStart(words, 32, i);
    JoinPart(words, i);
  }

  /** A block that lies at an aligned offset. */
  ghost predicate BlockAt(e: seq<Byte>, offset: nat, block: seq<Byte>) {
    offset % 32 == 0 && offset + |block| <= |e| && e[offset..offset + |block|] == block
  }

  lemma SlotInBlock(e: seq<Byte>, offset: nat, block: seq<Byte>, k: nat)
    requires BlockAt(e, offset, block) && InBounds(block, k)
    ensures InBounds(e, offset / 32 + k) && Slot(e, offset / 32 + k) == Slot(block, k)
  {
    SliceOfSlice(e, offset, |block|, 32 * k);
  }

  lemma SliceOfSlice(e: seq<Byte>, offset: nat, length: nat, k: nat)
    requires k + 32 <= length && offset + length <= |e|
    ensures e[offset..offset + length][k..k + 32] == e[offset + k..offset + k + 32]
  {
    var a, b := e[offset..offset + length][k..k + 32], e[offset + k..offset + k + 32];
    assert |a| == |b| && forall i :: 0 <= i < |a| ==> a[i] == b[i];
  }

  lemma FirstSlot(w: seq<Byte>, rest: seq<Byte>)
    requires |w| == 32
    ensures InBounds(w + rest, 0) && Slot(w + rest, 0) == w
  {
    assert (w + rest)[0..32] == w;
  }

  lemma LaterSlot(w: seq<Byte>, rest: seq<Byte>, k: nat)
    requires |w| == 32 && InBounds(rest, k)
    ensures InBounds(w + rest, 1 + k) && Slot(w + rest, 1 + k) == Slot(rest, k)
  {
    SliceBeyond(w, rest, 32 * k, 32 * k + 32);
  }

  ghost predicate ItemIs(e: seq<Byte>, first: nat, i: nat, value: nat) {
    InBounds(e, first + i) && Num(e, first + i) == value
  }

  ghost predicate Holds(e: seq<Byte>, first: nat, values: seq<nat>) {
    forall i :: 0 <= i < |values| ==> ItemIs(e, first, i, values[i])
  }

  lemma HeldItemsFit(e: seq<Byte>, first: nat, values: seq<nat>, limit: nat)
    requires Holds(e, first, values) && forall i :: 0 <= i < |values| ==> values[i] < limit
    ensures ItemsFit(e, first, |values|, limit)
  {
    forall i | 0 <= i < |values| ensures ItemFits(e, first, i, limit) {
      assert ItemIs(e, first, i, values[i]);
    }
  }

  lemma {:induction false} HeldItems(e: seq<Byte>, first: nat, values: seq<nat>, limit: nat)
    requires Holds(e, first, values) && ItemsFit(e, first, |values|, limit)
    ensures Items(e, first, |values|, limit) == values
  {
    if values != [] {
      var n := |values| - 1;
      assert ItemIs(e, first, n, values[n]);
      forall i | 0 <= i < n ensures ItemIs(e, first, i, values[..n][i]) { assert ItemIs(e, first, i, values[i]); }
      HeldItems(e, first, values[..n], limit);
    }
  }

  lemma ArrayItemAt(e: seq<Byte>, offset: nat, values: seq<nat>, width: nat, i: nat)
    requires width <= 32 && BlockAt(e, offset, ArrayBlock(values, width))
    requires i < |values| && values[i] < Pow256(width)
    ensures ItemIs(e, offset / 32 + 1, i, values[i])
  {
    var words := Words(values, width);
    SlotOfWords(words, i);
    LaterSlot(WordOf(|values|, 8), Join(words), i);
    SlotInBlock(e, offset, ArrayBlock(values, width), 1 + i);
    WordOfValue(values[i], width);
  }

  lemma ArrayItemsAt(e: seq<Byte>, offset: nat, values: seq<nat>, width: nat)
    requires width <= 32 && BlockAt(e, offset, ArrayBlock(values, width)) && AllBelow(values, Pow256(width))
    ensures Holds(e, offset / 32 + 1, values)
  {
    forall i | 0 <= i < |values| ensures ItemIs(e, offset / 32 + 1, i, values[i]) {
      ArrayItemAt(e, offset, values, width, i);
    }
  }

  lemma ArrayLengthAt(e: seq<Byte>, offset: nat, values: seq<nat>, width: nat)
    requires width <= 32 && BlockAt(e, offset, ArrayBlock(values, width)) && |values| < Pow256(8)
    ensures InBounds(e, offset / 32) && Num(e, offset / 32) == |values|
  {
    FirstSlot(WordOf(|values|, 8), Join(Words(values, width)));
    SlotInBlock(e, offset, ArrayBlock(values, width), 0);
    WordOfValue(|values|, 8);
  }

  /** An array lies where its offset says, item by item. */
  ghost predicate ArrayAt(e: seq<Byte>, offset: nat, values: seq<nat>) {
    offset % 32 == 0 && InBounds(e, offset / 32) && Num(e, offset / 32) == |values| && Holds(e, offset / 32 + 1, values)
  }

  lemma DynamicAt(e: seq<Byte>, offset: nat, b: seq<Byte>)
    requires BlockAt(e, offset, DynamicBlock(b)) && |b| < U32_LIMIT
    ensures DynamicOk(e, offset)
  {
    WordWidths();
    FirstSlot(WordOf(|b|, 8), Padded(b));
    SlotInBlock(e, offset, DynamicBlock(b), 0);
    WordOfValue(|b|, 8);
  }

  lemma HeadWordAt(e: seq<Byte>, head: seq<seq<Byte>>, i: nat)
    requires |head| == 5 && i < 5 && (forall j :: 0 <= j < 5 ==> |head[j]| == 32) && BlockAt(e, 0, Join(head))
    ensures InBounds(e, i) && Slot(e, i) == head[i]
  {
    SlotOfWords(head, i);
    SlotInBlock(e, 0, Join(head), i);
  }

  lemma BlockSizes(title: seq<Byte>, contentHash: B256, uri: seq<Byte>, contributors: seq<Address>, shares: seq<U32>)
    ensures var b := Blocks(title, contentHash, uri, contributors, shares);
      |b[0]| == 160 && |b[1]| == BlockSize(|title|) && |b[2]| == BlockSize(|uri|) && |b[3]| == 32 + |contributors| * 32
  {
    WordsLength(Head(title, contentHash, uri, contributors));
    WordsLength(Words(contributors, 20));
    DynamicBlockLength(title);
    DynamicBlockLength(uri);
  }

  lemma PaddedLength(b: seq<Byte>)
    ensures |Padded(b)| == |b| + (32 - |b| % 32) % 32
  {
  }

  lemma RoundedUp(n: nat)
    ensures n + (32 - n % 32) % 32 == (n + 31) / 32 * 32 >= n
  {
  }

  lemma BlockSizeAligned(n: nat)
    ensures BlockSize(n) % 32 == 0
  {
  }

  lemma DynamicBlockLength(b: seq<Byte>)
    ensures |DynamicBlock(b)| == BlockSize(|b|) && BlockSize(|b|) % 32 == 0 && 32 + |b| <= BlockSize(|b|)
  {
    PaddedLength(b);
    RoundedUp(|b|);
    BlockSizeAligned(|b|);
  }

  lemma FiveStarts(parts: seq<seq<Byte>>)
    requires |parts| == 5
    ensures Start(parts, 0) == 0 && Start(parts, 1) == |parts[0]| && Start(parts, 2) == |parts[0]| + |parts[1]|
    ensures Start(parts, 3) == |parts[0]| + |parts[1]| + |parts[2]|
    ensures Start(parts, 4) == |parts[0]| + |parts[1]| + |parts[2]| + |parts[3]|
  {
  }

  lemma BlockFromJoin(blocks: seq<seq<Byte>>, i: nat, offset: nat)
    requires i < |blocks| && Start(blocks, i) == offset && offset % 32 == 0
    ensures BlockAt(Join(blocks), offset, blocks[i])
  {
    JoinPart(blocks, i);
  }

  lemma BlockStarts(title: seq<Byte>, contentHash: B256, uri: seq<Byte>, contributors: seq<Address>, shares: seq<U32>)
    ensures var b := Blocks(title, contentHash, uri, contributors, shares);
      && Start(b, 0) == 0 && Start(b, 1) == 160 && Start(b, 2) == UriOffset(title)
      && Start(b, 3) == ContributorsOffset(title, uri) && Start(b, 4) == SharesOffset(title, uri, contributors)
  {
    BlockSizes(title, contentHash, uri, contributors, shares);
    FiveStarts(Blocks(title, contentHash, uri, contributors, shares));
  }

  lemma Aligned(title: seq<Byte>, uri: seq<Byte>, contributors: seq<Address>)
    ensures UriOffset(title) % 32 == 0 && ContributorsOffset(title, uri) % 32 == 0
      && SharesOffset(title, uri, contributors) % 32 == 0
  {
  }

  /** The blocks lie where the head says. */
  lemma BlocksAt(title: seq<Byte>, contentHash: B256, uri: seq<Byte>, contributors: seq<Address>, shares: seq<U32>,
                 e: seq<Byte>)
    requires e == Encoded(title, contentHash, uri, contributors, shares)
    ensures BlockAt(e, 0, Join(Head(title, contentHash, uri, contributors)))
    ensures BlockAt(e, 160, DynamicBlock(title)) && BlockAt(e, UriOffset(title), DynamicBlock(uri))
    ensures BlockAt(e, ContributorsOffset(title, uri), ArrayBlock(contributors, 20))
    ensures BlockAt(e, SharesOffset(title, uri, contributors), ArrayBlock(shares, 4))
  {
    var blocks := Blocks(title, contentHash, uri, contributors, shares);
    BlockStarts(title, contentHash, uri, contributors, shares);
    Aligned(title, uri, contributors);
    assert BlockAt(e, 0, blocks[0]) by { BlockFromJoin(blocks, 0, 0); }
    assert BlockAt(e, 160, blocks[1]) by { BlockFromJoin(blocks, 1, 160); }
    assert BlockAt(e, UriOffset(title), blocks[2]) by { BlockFromJoin(blocks, 2, UriOffset(title)); }
    assert BlockAt(e, ContributorsOffset(title, uri), blocks[3]) by {
      BlockFromJoin(blocks, 3, ContributorsOffset(title, uri));
    }
    assert BlockAt(e, SharesOffset(title, uri, contributors), blocks[4]) by {
      BlockFromJoin(blocks, 4, SharesOffset(title, uri, contributors));
    }
  }

  /** What each head word of an encoding says. */
  lemma HeadValues(title: seq<Byte>, contentHash: B256, uri: seq<Byte>, contributors: seq<Address>, e: seq<Byte>)
    requires BlockAt(e, 0, Join(Head(title, contentHash, uri, contributors)))
    requires SharesOffset(title, uri, contributors) < 0x1_0000_0000_0000_0000
    ensures InBounds(e, 0) && InBounds(e, 1) && InBounds(e, 2) && InBounds(e, 3) && InBounds(e, 4)
    ensures Num(e, 0) == 160 && Num(e, 1) == contentHash && Num(e, 2) == UriOffset(title)
    ensures Num(e, 3) == ContributorsOffset(title, uri) && Num(e, 4) == SharesOffset(title, uri, contributors)
  {
    var head := Head(title, contentHash, uri, contributors);
    WordWidths();
    HeadWordAt(e, head, 0);
    HeadWordAt(e, head, 1);
    HeadWordAt(e, head, 2);
    HeadWordAt(e, head, 3);
    HeadWordAt(e, head, 4);
    WordOfValue(160, 8);
    WordOfValue(UriOffset(title), 8);
    WordOfValue(ContributorsOffset(title, uri), 8);
    WordOfValue(SharesOffset(title, uri, contributors), 8);
    FromToBytes(contentHash, 32);
  }

  /** The encoding has a length that a 64-bit offset can address. */
  ghost predicate Addressable(title: seq<Byte>, uri: seq<Byte>, contributors: seq<Address>, shares: seq<U32>) {
    SharesOffset(title, uri, contributors) + 32 + 32 * |shares| < 0x1_0000_0000_0000_0000
  }

  lemma DynamicsRead(title: seq<Byte>, contentHash: B256, uri: seq<Byte>, contributors: seq<Address>, shares: seq<U32>,
                     e: seq<Byte>)
    requires e == Encoded(title, contentHash, uri, contributors, shares)
      && SharesOffset(title, uri, contributors) < U32_LIMIT
    ensures DynamicOk(e, 160) && DynamicOk(e, UriOffset(title))
  {
    BlocksAt(title, contentHash, uri, contributors, shares, e);
    DynamicBlockLength(title);
    DynamicBlockLength(uri);
    DynamicAt(e, 160, title);
    DynamicAt(e, UriOffset(title), uri);
  }

  lemma ArrayRead(e: seq<Byte>, offset: nat, values: seq<nat>, width: nat)
    requires width <= 32 && BlockAt(e, offset, ArrayBlock(values, width)) && AllBelow(values, Pow256(width))
      && |values| < Pow256(8)
    ensures ArrayAt(e, offset, values)
  {
    ArrayLengthAt(e, offset, values, width);
    ArrayItemsAt(e, offset, values, width);
  }

  lemma ArraysRead(title: seq<Byte>, contentHash: B256, uri: seq<Byte>, contributors: seq<Address>, shares: seq<U32>,
                   e: seq<Byte>)
    requires e == Encoded(title, contentHash, uri, contributors, shares)
      && Addressable(title, uri, contributors, shares)
    ensures ArrayAt(e, ContributorsOffset(title, uri), contributors)
    ensures ArrayAt(e, SharesOffset(title, uri, contributors), shares)
  {
    WordWidths();
    assert AllBelow(contributors, Pow256(20)) && AllBelow(shares, Pow256(4));
    BlocksAt(title, contentHash, uri, contributors, shares, e);
    ArrayRead(e, ContributorsOffset(title, uri), contributors, 20);
    ArrayRead(e, SharesOffset(title, uri, contributors), shares, 4);
  }

  lemma ArrayDecodes(e: seq<Byte>, offset: nat, values: seq<nat>, limit: nat)
    requires ArrayAt(e, offset, values) && AllBelow(values, limit)
    ensures ItemsFit(e, offset / 32 + 1, |values|, limit)
    ensures Items(e, offset / 32 + 1, |values|, limit) == values
  {
    HeldItemsFit(e, offset / 32 + 1, values, limit);
    HeldItems(e, offset / 32 + 1, values, limit);
  }

  lemma ArraysDecode(e: seq<Byte>, contributors: seq<Address>, shares: seq<U32>)
    requires HeadOk(e) && ArrayAt(e, Num(e, 3), contributors) && ArrayAt(e, Num(e, 4), shares)
    requires |contributors| < U32_LIMIT && |shares| < U32_LIMIT
    ensures ArraysOk(e) <==> |contributors| == |shares| > 0
    ensures ArraysOk(e) ==> Contributors(e) == contributors && Shares(e) == shares
  {
    assert AllBelow(contributors, ADDRESS_LIMIT) && AllBelow(shares, U32_LIMIT);
    if |contributors| == |shares| {
      ArrayDecodes(e, Num(e, 3), contributors, ADDRESS_LIMIT);
      ArrayDecodes(e, Num(e, 4), shares, U32_LIMIT);
    }
  }

  /** Decoding inverts encoding, exactly when the lists match, some share counts, and the last offset has 32 bits.
      Anything else that is encoded is skipped as malformed. */
  lemma ClaimRoundTrip(title: seq<Byte>, contentHash: B256, uri: seq<Byte>, contributors: seq<Address>,
                       shares: seq<U32>)
    requires Addressable(title, uri, contributors, shares)
    ensures Claim(Encoded(title, contentHash, uri, contributors, shares)) ==
      if |contributors| == |shares| > 0 && !AllZero(shares) && SharesOffset(title, uri, contributors) < U32_LIMIT
      then Some(ClaimPayload(contentHash, contributors, shares)) else None
  {
    var e := Encoded(title, contentHash, uri, contributors, shares);
    BlocksAt(title, contentHash, uri, contributors, shares, e);
    HeadValues(title, contentHash, uri, contributors, e);
    if SharesOffset(title, uri, contributors) < U32_LIMIT {
      ArraysRead(title, contentHash, uri, contributors, shares, e);
      DynamicsRead(title, contentHash, uri, contributors, shares, e);
      LongShares(e, shares);
      if |shares| < U32_LIMIT { ArraysDecode(e, contributors, shares); }
    }
  }

  lemma LongShares(e: seq<Byte>, shares: seq<U32>)
    requires HeadOk(e) && ArrayAt(e, Num(e, 4), shares)
    ensures |shares| >= U32_LIMIT ==> !ArraysOk(e)
  {
  }

  // ---- responses and valuations ------------------------------------------------

  /** `decode_response` and `decode_valuation`, which differ in the numbers they admit. */
  function Score(data: seq<Byte>, admitted: set<Byte>): Option<ScorePayload>
  {
    var claim, score := Word(data, 0), Word(data, 1);
    if claim.None? || score.None? then None else
      CleanMeaning(score.value, 31);
      SlotFits(data, 0);
      WordWidths();
      var clean := Clean(score.value, 31);
      if clean.None? || clean.value !in admitted then None
      else Some(ScorePayload(FromBytes(claim.value), clean.value))
  }

  const RESPONSES: set<Byte> := {1, 2}
  const SCORES: set<Byte> := set x: Byte | 0 <= x <= 100

  /** `encode_response` and `encode_valuation`. */
  function EncodedScore(p: ScorePayload): seq<Byte>
  {
    ToBytes(p.claim, 32) + WordOf(p.score, 1)
  }

  /** What is admitted comes back; every other number is skipped. */
  lemma ScoreRoundTrip(p: ScorePayload, admitted: set<Byte>)
    ensures Score(EncodedScore(p), admitted) == if p.score in admitted then Some(p) else None
  {
    WordWidths();
    var e := EncodedScore(p);
    assert Slot(e, 0) == ToBytes(p.claim, 32) && Slot(e, 1) == WordOf(p.score, 1);
    FromToBytes(p.claim, 32);
    WordOfValue(p.score, 1);
    CleanMeaning(Slot(e, 1), 31);
  }
}
