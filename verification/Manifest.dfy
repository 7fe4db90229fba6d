/** The frozen TGCM capture manifest: crates/composition-core/src/codec.rs. */
module Manifest {
  import opened Bytes
  import opened Sequences
  import opened Ordering

  const CAPTURE_HEADER_LENGTH: nat := 23
  const CAPTURE_RECORD_LENGTH: nat := 293
  const CAPTURE_MAGIC: seq<Byte> := [0x54, 0x47, 0x43, 0x4D]
  const MANIFEST_VERSION: nat := 1

  datatype CapturedSource = CapturedSource(
    sourceId: B256, snapshot: Address, familyId: B256, programId: B256, sourceOutputDomain: B256,
    stateIndex: U64, freezeBlock: U64, outputRoot: B256, blobSha256: B256, cidDigest: B256,
    totalValue: U128, weight: U64, maxAgeBlocks: U64, required: bool)

  datatype CapturedManifest = CapturedManifest(chainId: U64, captureBlock: U64, sources: seq<CapturedSource>)

  datatype ParseError =
    | CaptureManifestTooShort
    | InvalidCaptureMagic
    | UnsupportedCaptureVersion
    | WrongCaptureChain
    | InvalidCaptureManifestLength
    | OptionalSourceUnsupported

  datatype Parsed<+T> = Manifest(value: T) | Malformed(error: ParseError)

  predicate SourceIdLe(a: CapturedSource, b: CapturedSource) { a.sourceId <= b.sourceId }

  // ---- encoding ----------------------------------------------------------

  function RecordParts(s: CapturedSource): (r: seq<seq<Byte>>)
  {
    [ToBytes(s.sourceId, 32), ToBytes(s.snapshot, 20), ToBytes(s.familyId, 32), ToBytes(s.programId, 32),
     ToBytes(s.sourceOutputDomain, 32), ToBytes(s.stateIndex, 8), ToBytes(s.freezeBlock, 8),
     ToBytes(s.outputRoot, 32), ToBytes(s.blobSha256, 32), ToBytes(s.cidDigest, 32),
     ToBytes(s.totalValue, 16), ToBytes(s.weight, 8), ToBytes(s.maxAgeBlocks, 8),
     [if s.required then 1 else 0]]
  }

  function Records(sources: seq<CapturedSource>): (r: seq<seq<Byte>>)
    ensures |r| == |sources|
  {
    seq(|sources|, i requires 0 <= i < |sources| => Join(RecordParts(sources[i])))
  }

  /** The header; the count byte is `sources.len() as u8`, which truncates. */
  function Header(m: CapturedManifest): seq<Byte>
  {
    CAPTURE_MAGIC + ToBytes(MANIFEST_VERSION, 2) + ToBytes(m.chainId, 8) + ToBytes(m.captureBlock, 8)
      + [|m.sources| % 256]
  }

  function Encoded(m: CapturedManifest): seq<Byte>
  {
    Header(m) + Join(Records(SortBy(SourceIdLe, m.sources)))
  }

  /** `capture_manifest_encoded`. */
  method Encode(m: CapturedManifest) returns (out: seq<Byte>)
    ensures out == Encoded(m)
  {
    var sources := SortBy(SourceIdLe, m.sources);
    out := CAPTURE_MAGIC;
    out := out + ToBytes(MANIFEST_VERSION, 2);
    out := out + ToBytes(m.chainId, 8);
    out := out + ToBytes(m.captureBlock, 8);
    out := out + [|sources| % 256];
    for i := 0 to |sources|
      invariant out == Header(m) + Join(Records(sources)[..i])
    {
      assert Records(sources)[..i + 1][..i] == Records(sources)[..i];
      out := out + Join(RecordParts(sources[i]));
    }
    assert Records(sources)[..|sources|] == Records(sources);
  }

  // ---- parsing -----------------------------------------------------------

  function Read(bytes: seq<Byte>, offset: nat, width: nat): nat
    requires offset + width <= |bytes|
  {
    FromBytes(bytes[offset..offset + width])
  }

  lemma ReadFits(bytes: seq<Byte>, offset: nat, width: nat)
    requires offset + width <= |bytes|
    ensures Read(bytes, offset, width) < Pow256(width)
  {
    ToFromBytes(bytes[offset..offset + width]);
  }

  lemma ReadsFit(record: seq<Byte>)
    requires |record| == CAPTURE_RECORD_LENGTH
    ensures Read(record, 0, 32) < Pow256(32) && Read(record, 32, 20) < Pow256(20)
    ensures Read(record, 52, 32) < Pow256(32) && Read(record, 84, 32) < Pow256(32) && Read(record, 116, 32) < Pow256(32)
    ensures Read(record, 148, 8) < Pow256(8) && Read(record, 156, 8) < Pow256(8)
    ensures Read(record, 164, 32) < Pow256(32) && Read(record, 196, 32) < Pow256(32)
      && Read(record, 228, 32) < Pow256(32)
    ensures Read(record, 260, 16) < Pow256(16) && Read(record, 276, 8) < Pow256(8) && Read(record, 284, 8) < Pow256(8)
  {
    ReadFits(record, 0, 32);
    ReadFits(record, 32, 20);
    ReadFits(record, 52, 32);
    ReadFits(record, 84, 32);
    ReadFits(record, 116, 32);
    ReadFits(record, 148, 8);
    ReadFits(record, 156, 8);
    ReadFits(record, 164, 32);
    ReadFits(record, 196, 32);
    ReadFits(record, 228, 32);
    ReadFits(record, 260, 16);
    ReadFits(record, 276, 8);
    ReadFits(record, 284, 8);
  }

  /** One record, read at the offsets of the frozen layout. */
  function ReadRecord(record: seq<Byte>): CapturedSource
    requires |record| == CAPTURE_RECORD_LENGTH
  {
    ReadsFit(record);
    WordWidths();
    CapturedSource(
      Read(record, 0, 32), Read(record, 32, 20), Read(record, 52, 32), Read(record, 84, 32), Read(record, 116, 32),
      Read(record, 148, 8), Read(record, 156, 8), Read(record, 164, 32), Read(record, 196, 32), Read(record, 228, 32),
      Read(record, 260, 16), Read(record, 276, 8), Read(record, 284, 8), record[292] == 1)
  }

  function RecordAt(bytes: seq<Byte>, i: nat): (record: seq<Byte>)
    requires CAPTURE_HEADER_LENGTH + (i + 1) * CAPTURE_RECORD_LENGTH <= |bytes|
    ensures |record| == CAPTURE_RECORD_LENGTH
  {
    bytes[CAPTURE_HEADER_LENGTH + i * CAPTURE_RECORD_LENGTH..CAPTURE_HEADER_LENGTH + (i + 1) * CAPTURE_RECORD_LENGTH]
  }

  /** The record loop: a flag byte above one stops it. */
  function ParseRecords(bytes: seq<Byte>, count: nat): (r: Parsed<seq<CapturedSource>>)
    requires CAPTURE_HEADER_LENGTH + count * CAPTURE_RECORD_LENGTH <= |bytes|
    ensures r.Manifest? ==> |r.value| == count
  {
    if count == 0 then Manifest([]) else
      match ParseRecords(bytes, count - 1)
      case Malformed(e) => Malformed(e)
      case Manifest(front) =>
        var record := RecordAt(bytes, count - 1);
        if record[292] > 1 then Malformed(OptionalSourceUnsupported) else Manifest(front + [ReadRecord(record)])
  }

  function CaptureBlock(bytes: seq<Byte>): U64
    requires |bytes| >= CAPTURE_HEADER_LENGTH
  {
    ReadFits(bytes, 14, 8);
    WordWidths();
    Read(bytes, 14, 8)
  }

  function Parse(bytes: seq<Byte>, expectedChain: U64): Parsed<CapturedManifest>
  {
    if |bytes| < CAPTURE_HEADER_LENGTH then Malformed(CaptureManifestTooShort)
    else if bytes[..4] != CAPTURE_MAGIC then Malformed(InvalidCaptureMagic)
    else if Read(bytes, 4, 2) != MANIFEST_VERSION then Malformed(UnsupportedCaptureVersion)
    else if Read(bytes, 6, 8) != expectedChain then Malformed(WrongCaptureChain)
    else if |bytes| != CAPTURE_HEADER_LENGTH + bytes[22] * CAPTURE_RECORD_LENGTH
    then Malformed(InvalidCaptureManifestLength)
    else
      match ParseRecords(bytes, bytes[22])
      case Malformed(e) => Malformed(e)
      case Manifest(sources) => Manifest(CapturedManifest(expectedChain, CaptureBlock(bytes), sources))
  }

  /** The loop over the records. */
  method ReadRecords(bytes: seq<Byte>, count: nat) returns (r: Parsed<seq<CapturedSource>>)
    requires CAPTURE_HEADER_LENGTH + count * CAPTURE_RECORD_LENGTH <= |bytes|
    ensures r == ParseRecords(bytes, count)
  {
    var sources: seq<CapturedSource> := [];
    for index := 0 to count
      invariant ParseRecords(bytes, index) == Manifest(sources)
    {
      var record := RecordAt(bytes, index);
      sources := sources + [ReadRecord(record)];
      if record[292] > 1 {
        StopsParsing(bytes, index + 1, count);
        return Malformed(OptionalSourceUnsupported);
      }
    }
    r := Manifest(sources);
  }

  /** `parse_capture_manifest`. */
  method ParseManifest(bytes: seq<Byte>, expectedChain: U64) returns (r: Parsed<CapturedManifest>)
    ensures r == Parse(bytes, expectedChain)
  {
    if |bytes| < CAPTURE_HEADER_LENGTH { return Malformed(CaptureManifestTooShort); }
    if bytes[..4] != CAPTURE_MAGIC { return Malformed(InvalidCaptureMagic); }
    if Read(bytes, 4, 2) != MANIFEST_VERSION { return Malformed(UnsupportedCaptureVersion); }
    if Read(bytes, 6, 8) != expectedChain { return Malformed(WrongCaptureChain); }
    var count := bytes[22];
    if |bytes| != CAPTURE_HEADER_LENGTH + count * CAPTURE_RECORD_LENGTH {
      return Malformed(InvalidCaptureManifestLength);
    }
    var records := ReadRecords(bytes, count);
    if records.Malformed? { return Malformed(records.error); }
    r := Manifest(CapturedManifest(expectedChain, CaptureBlock(bytes), records.value));
  }

  lemma {:induction false} StopsParsing(bytes: seq<Byte>, n: nat, count: nat)
    requires n <= count && CAPTURE_HEADER_LENGTH + count * CAPTURE_RECORD_LENGTH <= |bytes|
    requires ParseRecords(bytes, n).Malformed?
    ensures ParseRecords(bytes, count) == ParseRecords(bytes, n)
  {
    if n < count { StopsParsing(bytes, n, count - 1); }
  }

  // ---- round trips -------------------------------------------------------

  lemma RecordStarts(s: CapturedSource)
    ensures var p := RecordParts(s);
      && Start(p, 0) == 0 && Start(p, 1) == 32 && Start(p, 2) == 52 && Start(p, 3) == 84 && Start(p, 4) == 116
      && Start(p, 5) == 148 && Start(p, 6) == 156 && Start(p, 7) == 164 && Start(p, 8) == 196 && Start(p, 9) == 228
      && Start(p, 10) == 260 && Start(p, 11) == 276 && Start(p, 12) == 284 && Start(p, 13) == 292 && Start(p, 14) == 293
  {
    var p := RecordParts(s);
    assert Start(p, 1) == 32;
    assert Start(p, 2) == 52;
    assert Start(p, 3) == 84;
    assert Start(p, 4) == 116;
    assert Start(p, 5) == 148;
    assert Start(p, 6) == 156;
    assert Start(p, 7) == 164;
    assert Start(p, 8) == 196;
    assert Start(p, 9) == 228;
    assert Start(p, 10) == 260;
    assert Start(p, 11) == 276;
    assert Start(p, 12) == 284;
    assert Start(p, 13) == 292;
  }

  lemma FieldRoundTrip(parts: seq<seq<Byte>>, i: nat, offset: nat, value: nat, width: nat)
    requires i < |parts| && Start(parts, i) == offset
    requires parts[i] == ToBytes(value, width) && value < Pow256(width)
    ensures offset + width <= |Join(parts)|
    ensures Read(Join(parts), offset, width) == value
  {
    JoinPart(parts, i);
    FromToBytes(value, width);
    assert |parts[i]| == width;
    assert Join(parts)[offset..offset + width] == ToBytes(value, width);
  }

  lemma RecordLength(s: CapturedSource)
    ensures |Join(RecordParts(s))| == CAPTURE_RECORD_LENGTH
    ensures Join(RecordParts(s))[292] == if s.required then 1 else 0
  {
    RecordStarts(s);
    JoinLength(RecordParts(s));
    JoinPart(RecordParts(s), 13);
    assert Join(RecordParts(s))[292..293] == RecordParts(s)[13];
  }

  lemma RecordRoundTripFront(s: CapturedSource)
    ensures var r := Join(RecordParts(s));
      && |r| == CAPTURE_RECORD_LENGTH
      && Read(r, 0, 32) == s.sourceId && Read(r, 32, 20) == s.snapshot && Read(r, 52, 32) == s.familyId
      && Read(r, 84, 32) == s.programId && Read(r, 116, 32) == s.sourceOutputDomain
      && Read(r, 148, 8) == s.stateIndex && Read(r, 156, 8) == s.freezeBlock
  {
    WordWidths();
    RecordStarts(s);
    RecordLength(s);
    FieldRoundTrip(RecordParts(s), 0, 0, s.sourceId, 32);
    FieldRoundTrip(RecordParts(s), 1, 32, s.snapshot, 20);
    FieldRoundTrip(RecordParts(s), 2, 52, s.familyId, 32);
    FieldRoundTrip(RecordParts(s), 3, 84, s.programId, 32);
    FieldRoundTrip(RecordParts(s), 4, 116, s.sourceOutputDomain, 32);
    FieldRoundTrip(RecordParts(s), 5, 148, s.stateIndex, 8);
    FieldRoundTrip(RecordParts(s), 6, 156, s.freezeBlock, 8);
  }

  lemma RecordRoundTripBack(s: CapturedSource)
    ensures var r := Join(RecordParts(s));
      && |r| == CAPTURE_RECORD_LENGTH
      && Read(r, 164, 32) == s.outputRoot && Read(r, 196, 32) == s.blobSha256 && Read(r, 228, 32) == s.cidDigest
      && Read(r, 260, 16) == s.totalValue && Read(r, 276, 8) == s.weight && Read(r, 284, 8) == s.maxAgeBlocks
  {
    WordWidths();
    RecordStarts(s);
    RecordLength(s);
    FieldRoundTrip(RecordParts(s), 7, 164, s.outputRoot, 32);
    FieldRoundTrip(RecordParts(s), 8, 196, s.blobSha256, 32);
    FieldRoundTrip(RecordParts(s), 9, 228, s.cidDigest, 32);
    FieldRoundTrip(RecordParts(s), 10, 260, s.totalValue, 16);
    FieldRoundTrip(RecordParts(s), 11, 276, s.weight, 8);
    FieldRoundTrip(RecordParts(s), 12, 284, s.maxAgeBlocks, 8);
  }

  lemma RecordRoundTrip(s: CapturedSource)
    ensures |Join(RecordParts(s))| == CAPTURE_RECORD_LENGTH
    ensures Join(RecordParts(s))[292] <= 1
    ensures ReadRecord(Join(RecordParts(s))) == s
  {
    RecordLength(s);
    RecordRoundTripFront(s);
    RecordRoundTripBack(s);
  }

  lemma FieldInverse(record: seq<Byte>, s: CapturedSource, i: nat, offset: nat, width: nat)
    requires i < 14 && offset + width <= |record| && Start(RecordParts(s), i) == offset
    requires RecordParts(s)[i] == ToBytes(Read(record, offset, width), width)
    ensures InPlace(RecordParts(s), record, i)
  {
    ToFromBytes(record[offset..offset + width]);
  }

  /** A record with a canonical flag is the encoding of what it parses to. */
  lemma RecordInverse(record: seq<Byte>)
    requires |record| == CAPTURE_RECORD_LENGTH && record[292] <= 1
    ensures Join(RecordParts(ReadRecord(record))) == record
  {
    var s := ReadRecord(record);
    RecordStarts(s);
    FieldInverse(record, s, 0, 0, 32);
    FieldInverse(record, s, 1, 32, 20);
    FieldInverse(record, s, 2, 52, 32);
    FieldInverse(record, s, 3, 84, 32);
    FieldInverse(record, s, 4, 116, 32);
    FieldInverse(record, s, 5, 148, 8);
    FieldInverse(record, s, 6, 156, 8);
    FieldInverse(record, s, 7, 164, 32);
    FieldInverse(record, s, 8, 196, 32);
    FieldInverse(record, s, 9, 228, 32);
    FieldInverse(record, s, 10, 260, 16);
    FieldInverse(record, s, 11, 276, 8);
    FieldInverse(record, s, 12, 284, 8);
    assert InPlace(RecordParts(s), record, 13);
    JoinUnique(RecordParts(s), record);
  }

  lemma RecordsLayout(sources: seq<CapturedSource>, i: nat)
    requires i <= |sources|
    ensures Start(Records(sources), i) == i * CAPTURE_RECORD_LENGTH
  {
    RecordLengths(sources);
    UniformStart(Records(sources), CAPTURE_RECORD_LENGTH, i);
  }

  lemma EncodedLength(m: CapturedManifest)
    ensures |Encoded(m)| == CAPTURE_HEADER_LENGTH + |m.sources| * CAPTURE_RECORD_LENGTH
  {
    var sources := SortBy(SourceIdLe, m.sources);
    RecordsLayout(sources, |sources|);
    JoinLength(Records(sources));
  }

  /** Among parts of one length, each is found by multiplication. */
  lemma UniformPart(header: seq<Byte>, parts: seq<seq<Byte>>, length: nat, i: nat)
    requires i < |parts| && forall k :: 0 <= k < |parts| ==> |parts[k]| == length
    ensures |header| + i * length <= |header| + (i + 1) * length <= |header + Join(parts)|
    ensures (header + Join(parts))[|header| + i * length..|header| + (i + 1) * length] == parts[i]
  {
    UniformStart(parts, length, i);
    assert i * length + length == (i + 1) * length;
    JoinPart(parts, i);
    SliceBeyond(header, Join(parts), i * length, (i + 1) * length);
  }

  lemma RecordLengths(sources: seq<CapturedSource>)
    ensures forall k :: 0 <= k < |sources| ==> |Records(sources)[k]| == CAPTURE_RECORD_LENGTH
  {
    forall k | 0 <= k < |sources|
      ensures |Records(sources)[k]| == CAPTURE_RECORD_LENGTH
    {
      RecordRoundTrip(sources[k]);
    }
  }

  lemma EncodedRecord(m: CapturedManifest, i: nat)
    requires i < |m.sources|
    ensures CAPTURE_HEADER_LENGTH + (i + 1) * CAPTURE_RECORD_LENGTH <= |Encoded(m)|
    ensures RecordAt(Encoded(m), i) == Join(RecordParts(SortBy(SourceIdLe, m.sources)[i]))
  {
    var sources := SortBy(SourceIdLe, m.sources);
    RecordLengths(sources);
    UniformPart(Header(m), Records(sources), CAPTURE_RECORD_LENGTH, i);
  }

  lemma EncodedRecordRead(m: CapturedManifest, i: nat)
    requires i < |m.sources|
    ensures CAPTURE_HEADER_LENGTH + (i + 1) * CAPTURE_RECORD_LENGTH <= |Encoded(m)|
    ensures RecordAt(Encoded(m), i)[292] <= 1 && ReadRecord(RecordAt(Encoded(m), i)) == SortBy(SourceIdLe, m.sources)[i]
  {
    EncodedRecord(m, i);
    RecordRoundTrip(SortBy(SourceIdLe, m.sources)[i]);
  }

  lemma ParseRecordsSnoc(bytes: seq<Byte>, n: nat, front: seq<CapturedSource>, s: CapturedSource)
    requires CAPTURE_HEADER_LENGTH + (n + 1) * CAPTURE_RECORD_LENGTH <= |bytes|
    requires ParseRecords(bytes, n) == Manifest(front)
    requires RecordAt(bytes, n)[292] <= 1 && ReadRecord(RecordAt(bytes, n)) == s
    ensures ParseRecords(bytes, n + 1) == Manifest(front + [s])
  {
  }

  lemma {:induction false} EncodedRecordsParse(m: CapturedManifest, count: nat)
    requires count <= |m.sources|
    ensures CAPTURE_HEADER_LENGTH + count * CAPTURE_RECORD_LENGTH <= |Encoded(m)|
    ensures ParseRecords(Encoded(m), count) == Manifest(SortBy(SourceIdLe, m.sources)[..count])
  {
    EncodedLength(m);
    if count > 0 {
      var sources := SortBy(SourceIdLe, m.sources);
      EncodedRecordsParse(m, count - 1);
      EncodedRecordRead(m, count - 1);
      ParseRecordsSnoc(Encoded(m), count - 1, sources[..count - 1], sources[count - 1]);
      TakeOneMore(sources, count - 1);
    }
  }

  lemma EncodedHeader(m: CapturedManifest)
    ensures |Encoded(m)| >= CAPTURE_HEADER_LENGTH
    ensures Encoded(m)[..4] == CAPTURE_MAGIC && Read(Encoded(m), 4, 2) == MANIFEST_VERSION
    ensures Read(Encoded(m), 6, 8) == m.chainId && Read(Encoded(m), 14, 8) == m.captureBlock
    ensures Encoded(m)[22] == |m.sources| % 256
  {
    WordWidths();
    var e := Encoded(m);
    assert e[..4] == CAPTURE_MAGIC;
    assert e[4..6] == ToBytes(MANIFEST_VERSION, 2);
    assert e[6..14] == ToBytes(m.chainId, 8);
    assert e[14..22] == ToBytes(m.captureBlock, 8);
    FromToBytes(MANIFEST_VERSION, 2);
    FromToBytes(m.chainId, 8);
    FromToBytes(m.captureBlock, 8);
  }

  ghost predicate WellFormed(bytes: seq<Byte>, m: CapturedManifest)
  {
    && |bytes| == CAPTURE_HEADER_LENGTH + |m.sources| * CAPTURE_RECORD_LENGTH
    && bytes[..4] == CAPTURE_MAGIC && Read(bytes, 4, 2) == MANIFEST_VERSION
    && Read(bytes, 6, 8) == m.chainId && Read(bytes, 14, 8) == m.captureBlock
    && bytes[22] == |m.sources| % 256
    && ParseRecords(bytes, |m.sources|) == Manifest(m.sources)
  }

  lemma ParseWellFormed(bytes: seq<Byte>, m: CapturedManifest)
    requires WellFormed(bytes, m)
    ensures Parse(bytes, m.chainId)
      == if |m.sources| <= 255 then Manifest(m) else Malformed(InvalidCaptureManifestLength)
  {
  }

  lemma EncodedWellFormed(m: CapturedManifest)
    ensures WellFormed(Encoded(m), m.(sources := SortBy(SourceIdLe, m.sources)))
  {
    EncodedHeader(m);
    EncodedLength(m);
    EncodedRecordsParse(m, |m.sources|);
    assert SortBy(SourceIdLe, m.sources)[..|m.sources|] == SortBy(SourceIdLe, m.sources);
  }

  /** Parsing inverts encoding up to the stable sort, exactly when the count fits its byte. */
  lemma ParseEncoded(m: CapturedManifest)
    ensures Parse(Encoded(m), m.chainId) ==
      if |m.sources| <= 255 then Manifest(m.(sources := SortBy(SourceIdLe, m.sources)))
      else Malformed(InvalidCaptureManifestLength)
  {
    EncodedWellFormed(m);
    ParseWellFormed(Encoded(m), m.(sources := SortBy(SourceIdLe, m.sources)));
  }

  lemma {:induction false} ParsedRecord(bytes: seq<Byte>, count: nat, i: nat)
    requires CAPTURE_HEADER_LENGTH + count * CAPTURE_RECORD_LENGTH <= |bytes| && i < count
    requires ParseRecords(bytes, count).Manifest?
    ensures ParseRecords(bytes, count).value[i] == ReadRecord(RecordAt(bytes, i)) && RecordAt(bytes, i)[292] <= 1
  {
    if i < count - 1 { ParsedRecord(bytes, count - 1, i); }
  }

  lemma HeaderInverse(bytes: seq<Byte>, m: CapturedManifest)
    requires |bytes| >= CAPTURE_HEADER_LENGTH && bytes[..4] == CAPTURE_MAGIC
    requires Read(bytes, 4, 2) == MANIFEST_VERSION && Read(bytes, 6, 8) == m.chainId
      && Read(bytes, 14, 8) == m.captureBlock
    requires |m.sources| == bytes[22]
    ensures Header(m) == bytes[..CAPTURE_HEADER_LENGTH]
  {
    ToFromBytes(bytes[4..6]);
    ToFromBytes(bytes[6..14]);
    ToFromBytes(bytes[14..22]);
    assert bytes[..23] == bytes[..4] + bytes[4..6] + bytes[6..14] + bytes[14..22] + [bytes[22]];
  }

  lemma RecordsInPlace(bytes: seq<Byte>, sources: seq<CapturedSource>, i: nat)
    requires |bytes| == CAPTURE_HEADER_LENGTH + |sources| * CAPTURE_RECORD_LENGTH && i < |sources|
    requires ParseRecords(bytes, |sources|) == Manifest(sources)
    ensures InPlace(Records(sources), bytes[CAPTURE_HEADER_LENGTH..], i)
  {
    ParsedRecord(bytes, |sources|, i);
    RecordInverse(RecordAt(bytes, i));
    RecordsLayout(sources, i);
    RecordSlice(bytes, i);
    assert Records(sources)[i] == RecordAt(bytes, i);
    InPlaceAt(Records(sources), bytes[CAPTURE_HEADER_LENGTH..], i, i * CAPTURE_RECORD_LENGTH,
      (i + 1) * CAPTURE_RECORD_LENGTH);
  }

  lemma InPlaceAt(parts: seq<seq<Byte>>, body: seq<Byte>, i: nat, from: nat, to: nat)
    requires i < |parts| && Start(parts, i) == from && from <= to <= |body| && |parts[i]| == to - from
      && body[from..to] == parts[i]
    ensures InPlace(parts, body, i)
  {
  }

  lemma RecordSlice(bytes: seq<Byte>, i: nat)
    requires CAPTURE_HEADER_LENGTH + (i + 1) * CAPTURE_RECORD_LENGTH <= |bytes|
    ensures bytes[CAPTURE_HEADER_LENGTH..][i * CAPTURE_RECORD_LENGTH..(i + 1) * CAPTURE_RECORD_LENGTH]
      == RecordAt(bytes, i)
  {
    assert bytes == bytes[..CAPTURE_HEADER_LENGTH] + bytes[CAPTURE_HEADER_LENGTH..];
    SliceBeyond(bytes[..CAPTURE_HEADER_LENGTH], bytes[CAPTURE_HEADER_LENGTH..], i * CAPTURE_RECORD_LENGTH,
      (i + 1) * CAPTURE_RECORD_LENGTH);
  }

  lemma BodyInverse(bytes: seq<Byte>, sources: seq<CapturedSource>)
    requires |bytes| == CAPTURE_HEADER_LENGTH + |sources| * CAPTURE_RECORD_LENGTH
    requires ParseRecords(bytes, |sources|) == Manifest(sources)
    ensures Join(Records(sources)) == bytes[CAPTURE_HEADER_LENGTH..]
  {
    RecordsLayout(sources, |sources|);
    forall i | 0 <= i < |sources| ensures InPlace(Records(sources), bytes[CAPTURE_HEADER_LENGTH..], i) {
      RecordsInPlace(bytes, sources, i);
    }
    JoinUnique(Records(sources), bytes[CAPTURE_HEADER_LENGTH..]);
  }

  /** Whatever parses with ascending ids is the canonical encoding of what it parses to. */
  lemma EncodeParsed(bytes: seq<Byte>, chain: U64)
    requires Parse(bytes, chain).Manifest? && Sorted(SourceIdLe, Parse(bytes, chain).value.sources)
    ensures Encoded(Parse(bytes, chain).value) == bytes
  {
    var m := Parse(bytes, chain).value;
    SortIdempotent(SourceIdLe, m.sources);
    HeaderInverse(bytes, m);
    BodyInverse(bytes, m.sources);
    assert bytes == bytes[..CAPTURE_HEADER_LENGTH] + bytes[CAPTURE_HEADER_LENGTH..];
  }

  /** With distinct ids the enumeration order of the sources does not reach the bytes. */
  lemma EncodingIgnoresOrder(m: CapturedManifest, sources: seq<CapturedSource>)
    requires multiset(m.sources) == multiset(sources)
    requires forall i, j :: 0 <= i < j < |sources| ==> sources[i].sourceId != sources[j].sourceId
    ensures Encoded(m) == Encoded(m.(sources := sources))
  {
    var a, b := SortBy(SourceIdLe, m.sources), SortBy(SourceIdLe, sources);
    SortElements(SourceIdLe, m.sources);
    SortElements(SourceIdLe, sources);
    SortSorted(SourceIdLe, m.sources);
    SortSorted(SourceIdLe, sources);
    SortMembers(SourceIdLe, m.sources);
    forall x, y | x in a && y in a && SourceIdLe(x, y) && SourceIdLe(y, x) ensures x == y {
      assert x in multiset(m.sources) && y in multiset(m.sources);
      assert x in sources && y in sources;
    }
    SortedUnique(SourceIdLe, a, b);
    assert |multiset(m.sources)| == |multiset(sources)|;
  }
}
