/** A reader for the serialization of NIP-01, and the escapes as section 7 of RFC 8259 allows them:
    research/nostr/bench_common.rs:21-110. */
module Nip01Reader {
  import opened Wrappers
  import opened Bytes
  import opened Nip01

  // ---- which escape ---------------------------------------------------------------

  predicate HexValue(d: Byte, n: nat) {
    (0x30 <= d <= 0x39 && n == d - 0x30) || (0x61 <= d <= 0x66 && n == d - 0x57) || (0x41 <= d <= 0x46 && n == d - 0x37)
  }

  predicate LowerHex(d: Byte) { d < 0x41 || d > 0x46 }

  /** The character after the backslash of a two-character escape, and what it stands for. */
  predicate ShortEscape(letter: Byte, b: Byte) {
    || (letter == b && (b == QUOTE || b == BACKSLASH || b == 0x2F))
    || (letter == 0x62 && b == 0x08) || (letter == 0x66 && b == 0x0C) || (letter == 0x6E && b == 0x0A)
    || (letter == 0x72 && b == 0x0D) || (letter == 0x74 && b == 0x09)
  }

  /** A way to write one byte inside a string: bare, by a short escape, or by its number. */
  predicate Literal(b: Byte, l: seq<Byte>) {
    || (l == [b] && b >= 0x20 && b != QUOTE && b != BACKSLASH)
    || (|l| == 2 && l[0] == BACKSLASH && ShortEscape(l[1], b))
    || (|l| == 6 && l[..4] == [BACKSLASH, 0x75, 0x30, 0x30] && b < 0x80
        && HexValue(l[4], b / 16) && HexValue(l[5], b % 16))
  }

  /** What is written for a byte is its shortest literal, and with lower-case digits the only one so short. */
  lemma ShortestLiteral(b: Byte, l: seq<Byte>)
    ensures Literal(b, Code(b))
    ensures Literal(b, l) ==> |Code(b)| <= |l|
    ensures Literal(b, l) && |l| == |Code(b)| && (|l| == 6 ==> LowerHex(l[4]) && LowerHex(l[5])) ==> l == Code(b)
  {
    var code := Code(b);
    if |code| == 6 { assert code[..4] == [BACKSLASH, 0x75, 0x30, 0x30]; }
    if Literal(b, l) && |l| == 6 == |code| && LowerHex(l[4]) && LowerHex(l[5]) {
      assert l == l[..4] + [l[4], l[5]] && code == code[..4] + [code[4], code[5]];
    }
  }

  // ---- the reader ------------------------------------------------------------------

  type Read<!T> = seq<Byte> -> Option<(T, seq<Byte>)>

  /** Whatever is written is read back, and what follows is left. */
  ghost predicate Reads<T(!new)>(enc: T -> seq<Byte>, read: Read<T>) {
    forall x, r :: read(enc(x) + r) == Some((x, r))
  }

  function ReadQuoted(): Read<seq<Byte>>
  {
    (s: seq<Byte>) => if s == [] || s[0] != QUOTE then None else ReadString(s[1..])
  }

  lemma QuotedReads()
    ensures Reads(QuotedText(), ReadQuoted())
  {
    forall x: seq<Byte>, r: seq<Byte> ensures ReadQuoted()(QuotedText()(x) + r) == Some((x, r)) {
      assert (Quoted(x) + r)[1..] == Escaped(x) + ([QUOTE] + r);
      EscapedReadsBack(x, r);
    }
  }

  /** The elements after the first, up to the closing bracket. */
  function ReadRest<T>(read: Read<T>, s: seq<Byte>): Option<(seq<T>, seq<Byte>)>
    decreases |s|
  {
    if s == [] then None
    else if s[0] == CLOSE then Some(([], s[1..]))
    else if s[0] != COMMA then None
    else
      match read(s[1..])
      case None => None
      case Some((first, after)) =>
        if |after| >= |s| then None else
          match ReadRest(read, after)
          case None => None
          case Some((others, left)) => Some(([first] + others, left))
  }

  function ReadElements<T>(read: Read<T>, s: seq<Byte>): Option<(seq<T>, seq<Byte>)>
  {
    if s == [] then None
    else if s[0] == CLOSE then Some(([], s[1..]))
    else
      match read(s)
      case None => None
      case Some((first, after)) =>
        match ReadRest(read, after)
        case None => None
        case Some((others, left)) => Some(([first] + others, left))
  }

  function ReadList<T>(read: Read<T>): Read<seq<T>>
  {
    (s: seq<Byte>) => if s == [] || s[0] != OPEN then None else ReadElements(read, s[1..])
  }

  lemma {:induction false} RestReads<T(!new)>(enc: T -> seq<Byte>, read: Read<T>, x: seq<T>, r: seq<Byte>)
    requires Reads(enc, read)
    ensures ReadRest(read, Rest(enc, x) + r) == Some((x, r))
  {
    var s := Rest(enc, x) + r;
    if x == [] {
      assert s[1..] == r;
    } else {
      var after := Rest(enc, x[1..]) + r;
      assert s[1..] == enc(x[0]) + after;
      assert s[0] == COMMA;
      RestReads(enc, read, x[1..], r);
      assert [x[0]] + x[1..] == x;
    }
  }

  lemma ElementsRead<T(!new)>(enc: T -> seq<Byte>, read: Read<T>, x: seq<T>, r: seq<Byte>)
    requires Reads(enc, read) && Begins(enc)
    ensures ReadElements(read, Elements(enc, x) + r) == Some((x, r))
  {
    ElementsStart(enc, x, r);
    if x == [] {
      assert ([CLOSE] + r)[1..] == r;
    } else {
      Associate(enc(x[0]), Rest(enc, x[1..]), r);
      RestReads(enc, read, x[1..], r);
      assert [x[0]] + x[1..] == x;
    }
  }

  lemma ListReadsAt<T(!new)>(enc: T -> seq<Byte>, read: Read<T>, x: seq<T>, r: seq<Byte>)
    requires Reads(enc, read) && Begins(enc)
    ensures ReadList(read)(List(enc, x) + r) == Some((x, r))
  {
    assert (List(enc, x) + r)[1..] == Elements(enc, x) + r;
    ElementsRead(enc, read, x, r);
  }

  lemma ListBegins<T(!new)>(enc: T -> seq<Byte>)
    ensures Begins(ListText(enc))
  {
  }

  /** Lists of what can be read can be read. */
  lemma ListReads<T(!new)>(enc: T -> seq<Byte>, read: Read<T>)
    requires Reads(enc, read) && Begins(enc)
    ensures Reads(ListText(enc), ReadList(read)) && Begins(ListText(enc))
  {
    assert Reads(ListText(enc), ReadList(read)) by {
      forall x: seq<T>, r: seq<Byte> ensures ReadList(read)(ListText(enc)(x) + r) == Some((x, r)) {
        ListReadsAt(enc, read, x, r);
        assert ListText(enc)(x) == List(enc, x);
      }
    }
    ListBegins(enc);
  }

  /** The length of the run at the front. */
  function Run(p: Byte -> bool, s: seq<Byte>): (n: nat)
    ensures n <= |s|
  {
    if s == [] || !p(s[0]) then 0 else 1 + Run(p, s[1..])
  }

  lemma {:induction false} RunIs(p: Byte -> bool, x: seq<Byte>, r: seq<Byte>)
    requires All(p, x) && r != [] && !p(r[0])
    ensures Run(p, x + r) == |x|
  {
    if x == [] {
      assert [] + r == r;
    } else {
      assert p(x[0]);
      assert (x + r)[1..] == x[1..] + r;
      RunIs(p, x[1..], r);
    }
  }

  function ReadNumber(s: seq<Byte>): Option<(int, seq<Byte>)>
  {
    var n := Run(IsDigit, s);
    if n == 0 then None else Some((DecimalValue(s[..n]), s[n..]))
  }

  lemma NumberReads(n: nat, r: seq<Byte>)
    requires r != [] && !IsDigit(r[0])
    ensures ReadNumber(Decimal(n) + r) == Some((n, r))
  {
    DecimalFacts(n);
    RunIs(IsDigit, Decimal(n), r);
    var s := Decimal(n) + r;
    assert s[..|Decimal(n)|] == Decimal(n) && s[|Decimal(n)|..] == r;
  }

  /** Two digits a byte. */
  function UnHex(s: seq<Byte>): Option<seq<Byte>>
  {
    if s == [] then Some([])
    else if |s| == 1 then None
    else
      var n := |s| - 2;
      var front := UnHex(s[..n]);
      if front.None? || Nibble(s[n]).None? || Nibble(s[n + 1]).None? then None
      else if 16 * Nibble(s[n]).value + Nibble(s[n + 1]).value > 255 then None
      else Some(front.value + [16 * Nibble(s[n]).value + Nibble(s[n + 1]).value])
  }

  lemma UnHexEnd(front: seq<Byte>, bytes: seq<Byte>, b: Byte)
    requires UnHex(front) == Some(bytes)
    ensures UnHex(front + [HexDigit(b / 16), HexDigit(b % 16)]) == Some(bytes + [b])
  {
    var s := front + [HexDigit(b / 16), HexDigit(b % 16)];
    NibbleOfDigit(b / 16);
    NibbleOfDigit(b % 16);
    assert s[..|s| - 2] == front;
  }

  lemma {:induction false} HexReads(bytes: seq<Byte>)
    ensures UnHex(Hex(bytes)) == Some(bytes)
  {
    if bytes != [] {
      var n := |bytes| - 1;
      HexReads(bytes[..n]);
      UnHexEnd(Hex(bytes[..n]), bytes[..n], bytes[n]);
      assert bytes == bytes[..n] + [bytes[n]];
    }
  }

  // ---- the event ---------------------------------------------------------------------

  function Skip(b: Byte, s: seq<Byte>): Option<seq<Byte>> { if s != [] && s[0] == b then Some(s[1..]) else None }

  lemma Skipped(b: Byte, r: seq<Byte>)
    ensures Skip(b, [b] + r) == Some(r)
  {
    assert ([b] + r)[1..] == r;
  }

  function ReadTags(): Read<seq<seq<seq<Byte>>>> { ReadList(ReadList(ReadQuoted())) }

  lemma TagsRead(tags: seq<seq<seq<Byte>>>, r: seq<Byte>)
    ensures ReadTags()(List(ListText(QuotedText()), tags) + r) == Some((tags, r))
  {
    QuotedReads();
    QuotedDecodable();
    ListReads(QuotedText(), ReadQuoted());
    ListReads(ListText(QuotedText()), ReadList(ReadQuoted()));
    assert ListText(ListText(QuotedText()))(tags) == List(ListText(QuotedText()), tags);
  }

  /** The content and the end. */
  function ReadContent(s: seq<Byte>): Option<seq<Byte>>
  {
    match ReadQuoted()(s)
    case None => None
    case Some((content, end)) => if end == [CLOSE] then Some(content) else None
  }

  lemma ContentReads(content: seq<Byte>)
    ensures ReadContent(Quoted(content) + [CLOSE]) == Some(content)
  {
    QuotedReads();
    assert QuotedText()(content) == Quoted(content);
  }

  /** The tags, a comma, the content and the end. */
  function ReadTagsAndContent(s: seq<Byte>): Option<(seq<seq<seq<Byte>>>, seq<Byte>)>
  {
    match ReadTags()(s)
    case None => None
    case Some((tags, after)) =>
      match Skip(COMMA, after)
      case None => None
      case Some(rest) =>
        match ReadContent(rest)
        case None => None
        case Some(content) => Some((tags, content))
  }

  lemma TagsAndContentRead(e: Event)
    ensures ReadTagsAndContent(AfterKind(e)) == Some((e.tags, e.content))
  {
    TagsRead(e.tags, [COMMA] + (Quoted(e.content) + [CLOSE]));
    Skipped(COMMA, Quoted(e.content) + [CLOSE]);
    ContentReads(e.content);
  }

  /** A number and the comma behind it. */
  function ReadField(s: seq<Byte>): Option<(int, seq<Byte>)>
  {
    match ReadNumber(s)
    case None => None
    case Some((n, after)) =>
      match Skip(COMMA, after)
      case None => None
      case Some(rest) => Some((n, rest))
  }

  lemma FieldReads(n: nat, r: seq<Byte>)
    ensures ReadField(Decimal(n) + ([COMMA] + r)) == Some((n, r))
  {
    NumberReads(n, [COMMA] + r);
    Skipped(COMMA, r);
  }

  /** The key up to its quote, as bytes, and what follows quote and comma. */
  function ReadKey(s: seq<Byte>): Option<(seq<Byte>, seq<Byte>)>
  {
    var n := Run(NoQuote, s);
    match UnHex(s[..n])
    case None => None
    case Some(key) => if |s| >= n + 2 && s[n..n + 2] == [QUOTE, COMMA] then Some((key, s[n + 2..])) else None
  }

  lemma KeyReads(key: seq<Byte>, r: seq<Byte>)
    ensures ReadKey(Hex(key) + ([QUOTE, COMMA] + r)) == Some((key, r))
  {
    var s, n := Hex(key) + ([QUOTE, COMMA] + r), |Hex(key)|;
    HexHasNoQuote(key);
    RunIs(NoQuote, Hex(key), [QUOTE, COMMA] + r);
    HexReads(key);
    assert s[..n] == Hex(key) && s[n..n + 2] == [QUOTE, COMMA] && s[n + 2..] == r;
  }

  /** An event from its array: the version, then key, time, kind, tags and content in this order. */
  function ReadEvent(s: seq<Byte>): Option<Event>
  {
    if |s| < 4 || s[..4] != [OPEN, 0x30, COMMA, QUOTE] then None else
      match ReadKey(s[4..])
      case None => None
      case Some((key, afterKey)) =>
        match ReadField(afterKey)
        case None => None
        case Some((time, afterTime)) =>
          match ReadField(afterTime)
          case None => None
          case Some((kind, afterKind)) =>
            match ReadTagsAndContent(afterKind)
            case None => None
            case Some((tags, content)) =>
              if time < 0 || kind < 0 then None else Some(Event(key, time, kind, tags, content))
  }

  /** Every serialization is read back, field by field. */
  lemma SerializedReadsBack(e: Event)
    ensures ReadEvent(Serialized(e)) == Some(e)
  {
    var afterTime := Decimal(e.kind) + ([COMMA] + AfterKind(e));
    var afterKey := Decimal(e.createdAt) + ([COMMA] + afterTime);
    var s := Serialized(e);
    assert s[..4] == [OPEN, 0x30, COMMA, QUOTE] && s[4..] == Hex(e.pubkey) + AfterKey(e);
    assert AfterKey(e) == [QUOTE, COMMA] + afterKey;
    KeyReads(e.pubkey, afterKey);
    FieldReads(e.createdAt, afterTime);
    FieldReads(e.kind, AfterKind(e));
    TagsAndContentRead(e);
  }
}
