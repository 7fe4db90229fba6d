/** Event serialization of NIP-01, with the string escapes of section 7 of RFC 8259: research/nostr/bench_common.rs. */
module Nip01 {
  import opened Wrappers
  import opened Bytes

  const QUOTE: Byte := 0x22
  const BACKSLASH: Byte := 0x5C
  const COMMA: Byte := 0x2C
  const OPEN: Byte := 0x5B
  const CLOSE: Byte := 0x5D

  /** Lower-case hexadecimal digit. */
  function HexDigit(n: nat): (b: Byte)
    requires n < 16
  {
    if n < 10 then 0x30 + n else 0x61 + (n - 10)
  }

  function Nibble(b: Byte): Option<nat>
  {
    if 0x30 <= b <= 0x39 then Some(b - 0x30) else if 0x61 <= b <= 0x66 then Some(b - 0x61 + 10) else None
  }

  // ---- escapes ---------------------------------------------------------------

  /** What `esc` writes for one byte. */
  function Code(b: Byte): (r: seq<Byte>)
  {
    if b == 0x0A then [BACKSLASH, 0x6E]
    else if b == QUOTE then [BACKSLASH, QUOTE]
    else if b == BACKSLASH then [BACKSLASH, BACKSLASH]
    else if b == 0x0D then [BACKSLASH, 0x72]
    else if b == 0x09 then [BACKSLASH, 0x74]
    else if b == 0x08 then [BACKSLASH, 0x62]
    else if b == 0x0C then [BACKSLASH, 0x66]
    else if b <= 0x1F then [BACKSLASH, 0x75, 0x30, 0x30, HexDigit(b / 16), HexDigit(b % 16)]
    else [b]
  }

  function Escaped(s: seq<Byte>): seq<Byte>
  {
    if s == [] then [] else Code(s[0]) + Escaped(s[1..])
  }

  /** Read one possibly escaped byte. */
  function ReadByte(s: seq<Byte>): Option<(Byte, seq<Byte>)>
    requires s != []
  {
    if s[0] != BACKSLASH then Some((s[0], s[1..]))
    else if |s| < 2 then None
    else if s[1] == 0x6E then Some((0x0A, s[2..]))
    else if s[1] == QUOTE then Some((QUOTE, s[2..]))
    else if s[1] == BACKSLASH then Some((BACKSLASH, s[2..]))
    else if s[1] == 0x72 then Some((0x0D, s[2..]))
    else if s[1] == 0x74 then Some((0x09, s[2..]))
    else if s[1] == 0x62 then Some((0x08, s[2..]))
    else if s[1] == 0x66 then Some((0x0C, s[2..]))
    else if s[1] == 0x75 && |s| >= 6 && s[2] == 0x30 && s[3] == 0x30 && Nibble(s[4]).Some? && Nibble(s[5]).Some?
    then Some((16 * Nibble(s[4]).value + Nibble(s[5]).value, s[6..]))
    else None
  }

  lemma NibbleOfDigit(n: nat)
    requires n < 16
    ensures Nibble(HexDigit(n)) == Some(n)
  {
  }

  lemma CodeReadsBack(b: Byte, rest: seq<Byte>)
    ensures Code(b) != [] && ReadByte(Code(b) + rest) == Some((b, rest))
    ensures Code(b)[0] != QUOTE
  {
    var s := Code(b) + rest;
    NibbleOfDigit(b / 16 % 16);
    NibbleOfDigit(b % 16);
    assert s[|Code(b)|..] == rest;
  }

  /** Read up to the closing quote. */
  function ReadString(s: seq<Byte>): Option<(seq<Byte>, seq<Byte>)>
    decreases |s|
  {
    if s == [] then None
    else if s[0] == QUOTE then Some(([], s[1..]))
    else
      var first := ReadByte(s);
      if first.None? || |first.value.1| >= |s| then None
      else
        var others := ReadString(first.value.1);
        if others.None? then None else Some(([first.value.0] + others.value.0, others.value.1))
  }

  /** Escaping can be undone, for every byte string, and the closing quote is unmistakable. */
  lemma {:induction false} EscapedReadsBack(s: seq<Byte>, rest: seq<Byte>)
    ensures ReadString(Escaped(s) + ([QUOTE] + rest)) == Some((s, rest))
  {
    var text := Escaped(s) + ([QUOTE] + rest);
    if s == [] {
      assert text == [QUOTE] + rest;
    } else {
      var tail := Escaped(s[1..]) + ([QUOTE] + rest);
      assert text == Code(s[0]) + tail;
      CodeReadsBack(s[0], tail);
      EscapedReadsBack(s[1..], rest);
      assert text[0] == Code(s[0])[0];
      assert [s[0]] + s[1..] == s;
    }
  }

  // ---- pieces that can be told apart ----------------------------------------------

  /** If the texts agree, so do the values and what follows. */
  ghost predicate SplitsAt<T(!new)>(enc: T -> seq<Byte>, a: T, r: seq<Byte>, b: T, s: seq<Byte>) {
    enc(a) + r == enc(b) + s ==> a == b && r == s
  }

  ghost predicate Decodable<T(!new)>(enc: T -> seq<Byte>) { forall a, r, b, s :: SplitsAt(enc, a, r, b, s) }

  /** No encoding is empty or starts like the end of a list. */
  ghost predicate Begins<T(!new)>(enc: T -> seq<Byte>) { forall a :: |enc(a)| > 0 && enc(a)[0] != CLOSE }

  function Quoted(s: seq<Byte>): seq<Byte> { [QUOTE] + Escaped(s) + [QUOTE] }

  function QuotedText(): seq<Byte> -> seq<Byte> { s => Quoted(s) }

  lemma QuotedSplits(a: seq<Byte>, r: seq<Byte>, b: seq<Byte>, s: seq<Byte>)
    requires Quoted(a) + r == Quoted(b) + s
    ensures a == b && r == s
  {
    assert (Quoted(a) + r)[1..] == Escaped(a) + ([QUOTE] + r);
    assert (Quoted(b) + s)[1..] == Escaped(b) + ([QUOTE] + s);
    EscapedReadsBack(a, r);
    EscapedReadsBack(b, s);
  }

  lemma QuotedDecodable()
    ensures Decodable(QuotedText()) && Begins(QuotedText())
  {
    forall a: seq<Byte>, r: seq<Byte>, b: seq<Byte>, s: seq<Byte> ensures SplitsAt(QuotedText(), a, r, b, s) {
      if Quoted(a) + r == Quoted(b) + s { QuotedSplits(a, r, b, s); }
    }
  }

  /** The elements after the first, each behind a comma, and the closing bracket. */
  function Rest<T>(enc: T -> seq<Byte>, list: seq<T>): seq<Byte>
  {
    if list == [] then [CLOSE] else [COMMA] + enc(list[0]) + Rest(enc, list[1..])
  }

  function Elements<T>(enc: T -> seq<Byte>, list: seq<T>): seq<Byte>
  {
    if list == [] then [CLOSE] else enc(list[0]) + Rest(enc, list[1..])
  }

  function List<T>(enc: T -> seq<Byte>, list: seq<T>): seq<Byte> { [OPEN] + Elements(enc, list) }

  function ListText<T>(enc: T -> seq<Byte>): seq<T> -> seq<Byte> { list => List(enc, list) }

  lemma {:induction false} RestSplits<T(!new)>(enc: T -> seq<Byte>, x: seq<T>, r: seq<Byte>, y: seq<T>, s: seq<Byte>)
    requires Decodable(enc) && Rest(enc, x) + r == Rest(enc, y) + s
    ensures x == y && r == s
    decreases |x| + |y|
  {
    var u, v := Rest(enc, x) + r, Rest(enc, y) + s;
    assert u[0] == (if x == [] then CLOSE else COMMA) && v[0] == (if y == [] then CLOSE else COMMA);
    if x == [] {
      assert u[1..] == r && v[1..] == s;
    } else {
      assert u[1..] == enc(x[0]) + (Rest(enc, x[1..]) + r);
      assert v[1..] == enc(y[0]) + (Rest(enc, y[1..]) + s);
      assert SplitsAt(enc, x[0], Rest(enc, x[1..]) + r, y[0], Rest(enc, y[1..]) + s);
      RestSplits(enc, x[1..], r, y[1..], s);
      assert x == [x[0]] + x[1..] && y == [y[0]] + y[1..];
    }
  }

  lemma Associate(a: seq<Byte>, b: seq<Byte>, c: seq<Byte>)
    ensures (a + b) + c == a + (b + c)
  {
  }

  lemma ElementsStart<T(!new)>(enc: T -> seq<Byte>, x: seq<T>, r: seq<Byte>)
    requires Begins(enc)
    ensures Elements(enc, x) + r != []
    ensures x == [] <==> (Elements(enc, x) + r)[0] == CLOSE
  {
    if x != [] { assert (Elements(enc, x) + r)[0] == enc(x[0])[0]; }
  }

  lemma ElementsSplit<T(!new)>(enc: T -> seq<Byte>, x: seq<T>, r: seq<Byte>, y: seq<T>, s: seq<Byte>)
    requires Decodable(enc) && Begins(enc) && Elements(enc, x) + r == Elements(enc, y) + s
    ensures x == y && r == s
  {
    ElementsStart(enc, x, r);
    ElementsStart(enc, y, s);
    if x == [] {
      assert ([CLOSE] + r)[1..] == r && ([CLOSE] + s)[1..] == s;
    } else {
      Associate(enc(x[0]), Rest(enc, x[1..]), r);
      Associate(enc(y[0]), Rest(enc, y[1..]), s);
      assert SplitsAt(enc, x[0], Rest(enc, x[1..]) + r, y[0], Rest(enc, y[1..]) + s);
      RestSplits(enc, x[1..], r, y[1..], s);
      assert x == [x[0]] + x[1..] && y == [y[0]] + y[1..];
    }
  }

  /** Lists of distinguishable elements are distinguishable. */
  lemma ListDecodable<T(!new)>(enc: T -> seq<Byte>)
    requires Decodable(enc) && Begins(enc)
    ensures Decodable(ListText(enc)) && Begins(ListText(enc))
  {
    forall x: seq<T>, r: seq<Byte>, y: seq<T>, s: seq<Byte> ensures SplitsAt(ListText(enc), x, r, y, s) {
      if List(enc, x) + r == List(enc, y) + s {
        assert (List(enc, x) + r)[1..] == Elements(enc, x) + r && (List(enc, y) + s)[1..] == Elements(enc, y) + s;
        ElementsSplit(enc, x, r, y, s);
      }
    }
  }

  // ---- numbers and keys ---------------------------------------------------------------

  /** Decimal digits, as `to_string` writes them. */
  function Decimal(n: nat): (r: seq<Byte>)
    ensures r != []
  {
    if n < 10 then [0x30 + n] else Decimal(n / 10) + [0x30 + n % 10]
  }

  function DecimalValue(s: seq<Byte>): int
  {
    if s == [] then 0 else 10 * DecimalValue(s[..|s| - 1]) + (s[|s| - 1] as int - 0x30)
  }

  predicate IsDigit(b: Byte) { 0x30 <= b <= 0x39 }

  ghost predicate All(p: Byte -> bool, s: seq<Byte>) { forall i :: 0 <= i < |s| ==> p(s[i]) }

  ghost predicate AllDigits(s: seq<Byte>) { All(IsDigit, s) }

  lemma {:induction false} DecimalFacts(n: nat)
    ensures AllDigits(Decimal(n)) && DecimalValue(Decimal(n)) == n
  {
    if n >= 10 {
      DecimalFacts(n / 10);
      assert Decimal(n)[..|Decimal(n)| - 1] == Decimal(n / 10);
    } else {
      assert Decimal(n)[..0] == [];
    }
  }

  /** A run of bytes of one kind ends at the first byte of another. */
  lemma {:induction false} RunSplits(p: Byte -> bool, x: seq<Byte>, r: seq<Byte>, y: seq<Byte>, s: seq<Byte>)
    requires All(p, x) && All(p, y) && r != [] && s != [] && !p(r[0]) && !p(s[0])
    requires x + r == y + s
    ensures x == y && r == s
  {
    assert (x + r)[0] == (if x == [] then r[0] else x[0]);
    assert (y + s)[0] == (if y == [] then s[0] else y[0]);
    assert y != [] ==> p(y[0]);
    if x == [] {
      assert [] + r == r && [] + s == s;
    } else {
      assert p(x[0]);
      assert (x + r)[1..] == x[1..] + r && (y + s)[1..] == y[1..] + s;
      RunSplits(p, x[1..], r, y[1..], s);
      assert x == [x[0]] + x[1..] && y == [y[0]] + y[1..];
    }
  }

  lemma DecimalSplits(a: nat, r: seq<Byte>, b: nat, s: seq<Byte>)
    requires Decimal(a) + ([COMMA] + r) == Decimal(b) + ([COMMA] + s)
    ensures a == b && r == s
  {
    DecimalFacts(a);
    DecimalFacts(b);
    RunSplits(IsDigit, Decimal(a), [COMMA] + r, Decimal(b), [COMMA] + s);
    assert ([COMMA] + r)[1..] == r && ([COMMA] + s)[1..] == s;
  }

  /** `hex_bytes`. */
  function Hex(bytes: seq<Byte>): (r: seq<Byte>)
    ensures |r| == 2 * |bytes|
  {
    if bytes == [] then [] else
      var n := |bytes| - 1;
      Hex(bytes[..n]) + [HexDigit(bytes[n] / 16), HexDigit(bytes[n] % 16)]
  }

  lemma HexPairInjective(a: Byte, b: Byte)
    requires HexDigit(a / 16) == HexDigit(b / 16) && HexDigit(a % 16) == HexDigit(b % 16)
    ensures a == b
  {
    NibbleOfDigit(a / 16);
    NibbleOfDigit(b / 16);
    NibbleOfDigit(a % 16);
    NibbleOfDigit(b % 16);
  }

  lemma HexEnd(a: seq<Byte>)
    requires a != []
    ensures var n := |a| - 1;
      Hex(a)[..2 * n] == Hex(a[..n]) && Hex(a)[2 * n] == HexDigit(a[n] / 16) && Hex(a)[2 * n + 1] == HexDigit(a[n] % 16)
  {
  }

  lemma {:induction false} HexInjective(a: seq<Byte>, b: seq<Byte>)
    requires Hex(a) == Hex(b)
    ensures a == b
  {
    assert |b| == |a|;
    if a != [] {
      var n := |a| - 1;
      HexEnd(a);
      HexEnd(b);
      HexInjective(a[..n], b[..n]);
      HexPairInjective(a[n], b[n]);
      assert a == a[..n] + [a[n]] && b == b[..n] + [b[n]];
    }
  }

  // ---- the event ------------------------------------------------------------------------

  datatype Event = Event(pubkey: seq<Byte>, createdAt: nat, kind: nat, tags: seq<seq<seq<Byte>>>, content: seq<Byte>)

  function TagsText(): seq<seq<seq<Byte>>> -> seq<Byte> { ListText(ListText(QuotedText())) }

  function AfterKind(e: Event): seq<Byte>
  {
    List(ListText(QuotedText()), e.tags) + ([COMMA] + (Quoted(e.content) + [CLOSE]))
  }

  function AfterKey(e: Event): seq<Byte> {
    [QUOTE, COMMA] + (Decimal(e.createdAt) + ([COMMA] + (Decimal(e.kind) + ([COMMA] + AfterKind(e)))))
  }

  function Serialized(e: Event): seq<Byte> { [OPEN, 0x30, COMMA, QUOTE] + (Hex(e.pubkey) + AfterKey(e)) }

  lemma TagsDecodable()
    ensures Decodable(TagsText())
  {
    QuotedDecodable();
    ListDecodable(QuotedText());
    ListDecodable(ListText(QuotedText()));
  }

  lemma TagsSplit(a: seq<seq<seq<Byte>>>, r: seq<Byte>, b: seq<seq<seq<Byte>>>, s: seq<Byte>)
    requires List(ListText(QuotedText()), a) + r == List(ListText(QuotedText()), b) + s
    ensures a == b && r == s
  {
    TagsDecodable();
    assert SplitsAt(TagsText(), a, r, b, s);
  }

  lemma AfterKindInjective(a: Event, b: Event)
    requires AfterKind(a) == AfterKind(b)
    ensures a.tags == b.tags && a.content == b.content
  {
    TagsSplit(a.tags, [COMMA] + (Quoted(a.content) + [CLOSE]), b.tags, [COMMA] + (Quoted(b.content) + [CLOSE]));
    ContentInjective(a.content, b.content);
  }

  lemma ContentInjective(a: seq<Byte>, b: seq<Byte>)
    requires [COMMA] + (Quoted(a) + [CLOSE]) == [COMMA] + (Quoted(b) + [CLOSE])
    ensures a == b
  {
    var r, s := [COMMA] + (Quoted(a) + [CLOSE]), [COMMA] + (Quoted(b) + [CLOSE]);
    assert r[1..] == Quoted(a) + [CLOSE] && s[1..] == Quoted(b) + [CLOSE];
    QuotedSplits(a, [CLOSE], b, [CLOSE]);
  }

  lemma AfterKeyInjective(a: Event, b: Event)
    requires AfterKey(a) == AfterKey(b)
    ensures a.createdAt == b.createdAt && a.kind == b.kind && AfterKind(a) == AfterKind(b)
  {
    var x, y := Decimal(a.kind) + ([COMMA] + AfterKind(a)), Decimal(b.kind) + ([COMMA] + AfterKind(b));
    assert AfterKey(a)[2..] == Decimal(a.createdAt) + ([COMMA] + x);
    assert AfterKey(b)[2..] == Decimal(b.createdAt) + ([COMMA] + y);
    DecimalSplits(a.createdAt, x, b.createdAt, y);
    DecimalSplits(a.kind, AfterKind(a), b.kind, AfterKind(b));
  }

  predicate NoQuote(b: Byte) { b != QUOTE }

  lemma {:induction false} HexHasNoQuote(bytes: seq<Byte>)
    ensures All(NoQuote, Hex(bytes))
  {
    if bytes != [] { HexHasNoQuote(bytes[..|bytes| - 1]); }
  }

  /** Events with the same serialization are the same event, whatever the length of their keys:
      no key, nesting, escape or number is ambiguous. */
  lemma SerializationInjective(a: Event, b: Event)
    requires Serialized(a) == Serialized(b)
    ensures a == b
  {
    var x, y := Hex(a.pubkey) + AfterKey(a), Hex(b.pubkey) + AfterKey(b);
    assert Serialized(a)[4..] == x && Serialized(b)[4..] == y;
    HexHasNoQuote(a.pubkey);
    HexHasNoQuote(b.pubkey);
    RunSplits(NoQuote, Hex(a.pubkey), AfterKey(a), Hex(b.pubkey), AfterKey(b));
    HexInjective(a.pubkey, b.pubkey);
    AfterKeyInjective(a, b);
    AfterKindInjective(a, b);
  }

  // ---- the loops ---------------------------------------------------------------------------

  lemma {:induction false} EscapedSnoc(s: seq<Byte>, i: nat)
    requires i < |s|
    ensures Escaped(s[..i + 1]) == Escaped(s[..i]) + Code(s[i])
  {
    if i == 0 {
      assert s[..1] == [s[0]] && s[..1][1..] == [];
      assert s[..0] == [];
      assert Code(s[0]) + [] == Code(s[0]) && [] + Code(s[0]) == Code(s[0]);
    } else {
      assert s[..i + 1][1..] == s[1..][..i] && s[..i][1..] == s[1..][..i - 1];
      EscapedSnoc(s[1..], i - 1);
    }
  }

  /** `esc`. */
  method Escape(s: seq<Byte>, out: seq<Byte>) returns (r: seq<Byte>)
    ensures r == out + Escaped(s)
  {
    r := out;
    for i := 0 to |s|
      invariant r == out + Escaped(s[..i])
    {
      EscapedSnoc(s, i);
      r := r + Code(s[i]);
    }
    assert s[..|s|] == s;
  }

  /** `hex_bytes`. */
  method HexBytes(bytes: seq<Byte>, out: seq<Byte>) returns (r: seq<Byte>)
    ensures r == out + Hex(bytes)
  {
    r := out;
    for i := 0 to |bytes|
      invariant r == out + Hex(bytes[..i])
    {
      assert bytes[..i + 1][..i] == bytes[..i];
      r := r + [HexDigit(bytes[i] / 16)];
      r := r + [HexDigit(bytes[i] % 16)];
    }
    assert bytes[..|bytes|] == bytes;
  }

  /** The elements so far, with commas between them. */
  function Separated<T>(enc: T -> seq<Byte>, list: seq<T>): seq<Byte>
  {
    if list == [] then [] else if |list| == 1 then enc(list[0])
    else Separated(enc, list[..|list| - 1]) + [COMMA] + enc(list[|list| - 1])
  }

  lemma {:induction false} RestSnoc<T>(enc: T -> seq<Byte>, list: seq<T>, x: T)
    ensures Rest(enc, list + [x]) == Rest(enc, list)[..|Rest(enc, list)| - 1] + [COMMA] + enc(x) + [CLOSE]
    ensures Rest(enc, list) != [] && Rest(enc, list)[|Rest(enc, list)| - 1] == CLOSE
  {
    if list == [] {
      assert ([] + [x])[1..] == [];
    } else {
      RestSnoc(enc, list[1..], x);
      assert (list + [x])[1..] == list[1..] + [x];
    }
  }

  lemma DropClose(a: seq<Byte>, b: seq<Byte>, rest: seq<Byte>)
    requires a + [CLOSE] == b + rest && rest != []
    ensures a == b + rest[..|rest| - 1]
  {
    assert a == (a + [CLOSE])[..|a|] && b + rest[..|rest| - 1] == (b + rest)[..|b + rest| - 1];
  }

  lemma SeparatedSnoc<T>(enc: T -> seq<Byte>, list: seq<T>, i: nat)
    requires i < |list|
    ensures Separated(enc, list[..i + 1]) == (if i == 0 then [] else Separated(enc, list[..i]) + [COMMA]) + enc(list[i])
  {
    assert list[..i + 1][..i] == list[..i];
    assert [] + enc(list[i]) == enc(list[i]);
  }

  lemma AssociateFive(a: seq<Byte>, b: seq<Byte>, c: seq<Byte>, d: seq<Byte>, e: seq<Byte>)
    ensures (((a + b) + c) + d) + e == a + (((b + c) + d) + e)
  {
  }

  lemma {:induction false} SeparatedCloses<T>(enc: T -> seq<Byte>, list: seq<T>)
    ensures Separated(enc, list) + [CLOSE] == Elements(enc, list)
  {
    if |list| == 1 {
      assert list[1..] == [];
    } else if |list| > 1 {
      var n := |list| - 1;
      SeparatedCloses(enc, list[..n]);
      RestSnoc(enc, list[1..n], list[n]);
      assert list[1..] == list[1..n] + [list[n]] && list[..n][1..] == list[1..n];
      var rest := Rest(enc, list[1..n]);
      DropClose(Separated(enc, list[..n]), enc(list[0]), rest);
      AssociateFive(enc(list[0]), rest[..|rest| - 1], [COMMA], enc(list[n]), [CLOSE]);
    }
  }

  /** One more element behind what is written: a comma first, unless it is the first. */
  lemma WrittenSnoc<T>(enc: T -> seq<Byte>, list: seq<T>, i: nat, start: seq<Byte>)
    requires i < |list|
    ensures (if i != 0 then (start + Separated(enc, list[..i])) + [COMMA] else start + Separated(enc, list[..i])) +
      enc(list[i])
      == start + Separated(enc, list[..i + 1])
  {
    SeparatedSnoc(enc, list, i);
    if i == 0 {
      assert start + [] == start;
    } else {
      Associate(start, Separated(enc, list[..i]), [COMMA]);
      Associate(start, Separated(enc, list[..i]) + [COMMA], enc(list[i]));
    }
  }

  lemma WrittenDone<T>(enc: T -> seq<Byte>, list: seq<T>, out: seq<Byte>)
    ensures ((out + [OPEN]) + Separated(enc, list[..|list|])) + [CLOSE] == out + List(enc, list)
  {
    assert list[..|list|] == list;
    SeparatedCloses(enc, list);
    Associate(out + [OPEN], Separated(enc, list), [CLOSE]);
    Associate(out, [OPEN], Elements(enc, list));
  }

  method WriteQuoted(s: seq<Byte>, out: seq<Byte>) returns (r: seq<Byte>)
    ensures r == out + Quoted(s)
  {
    r := out + [QUOTE];
    r := Escape(s, r);
    r := r + [QUOTE];
  }

  /** The loop over the elements of one tag. */
  method WriteTag(tag: seq<seq<Byte>>, out: seq<Byte>) returns (r: seq<Byte>)
    ensures r == out + List(QuotedText(), tag)
  {
    r := out + [OPEN];
    assert r + [] == r;
    for i := 0 to |tag|
      invariant r == (out + [OPEN]) + Separated(QuotedText(), tag[..i])
    {
      WrittenSnoc(QuotedText(), tag, i, out + [OPEN]);
      if i != 0 { r := r + [COMMA]; }
      r := WriteQuoted(tag[i], r);
    }
    WrittenDone(QuotedText(), tag, out);
    r := r + [CLOSE];
  }

  method WriteTags(tags: seq<seq<seq<Byte>>>, out: seq<Byte>) returns (r: seq<Byte>)
    ensures r == out + List(ListText(QuotedText()), tags)
  {
    r := out + [OPEN];
    assert r + [] == r;
    for i := 0 to |tags|
      invariant r == (out + [OPEN]) + Separated(ListText(QuotedText()), tags[..i])
    {
      WrittenSnoc(ListText(QuotedText()), tags, i, out + [OPEN]);
      if i != 0 { r := r + [COMMA]; }
      r := WriteTag(tags[i], r);
    }
    WrittenDone(ListText(QuotedText()), tags, out);
    r := r + [CLOSE];
  }

  /** What follows the kind in the output. */
  method WriteAfterKind(e: Event, out: seq<Byte>) returns (r: seq<Byte>)
    ensures r == out + AfterKind(e)
  {
    r := WriteTags(e.tags, out);
    ghost var tags := List(ListText(QuotedText()), e.tags);
    Associate(out, tags, [COMMA] + (Quoted(e.content) + [CLOSE]));
    Associate(out + tags, [COMMA], Quoted(e.content) + [CLOSE]);
    r := r + [COMMA];
    Associate(r, Quoted(e.content), [CLOSE]);
    r := WriteQuoted(e.content, r);
    r := r + [CLOSE];
  }

  method WriteAfterKey(e: Event, out: seq<Byte>) returns (r: seq<Byte>)
    ensures r == out + AfterKey(e)
  {
    ghost var t := [COMMA] + AfterKind(e);
    Associate(out, [QUOTE, COMMA], Decimal(e.createdAt) + ([COMMA] + (Decimal(e.kind) + t)));
    r := out + [QUOTE, COMMA];
    Associate(r, Decimal(e.createdAt), [COMMA] + (Decimal(e.kind) + t));
    r := r + Decimal(e.createdAt);
    Associate(r, [COMMA], Decimal(e.kind) + t);
    r := r + [COMMA];
    Associate(r, Decimal(e.kind), t);
    r := r + Decimal(e.kind);
    Associate(r, [COMMA], AfterKind(e));
    r := r + [COMMA];
    r := WriteAfterKind(e, r);
  }

  /** `nip01_serialize`. */
  method Serialize(e: Event) returns (out: seq<Byte>)
    ensures out == Serialized(e)
  {
    out := HexBytes(e.pubkey, [OPEN, 0x30, COMMA, QUOTE]);
    Associate([OPEN, 0x30, COMMA, QUOTE], Hex(e.pubkey), AfterKey(e));
    out := WriteAfterKey(e, out);
  }
}
