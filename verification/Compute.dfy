/** The whole of `compute` in crates/composition-core/src/compute.rs: the static policy checks, the
    blob checks and the bounds, then the blend. Digest comparisons are inputs. */
module Compute {
  import opened Wrappers
  import opened Totals
  import opened Hamilton
  import opened Composition
  import M = Manifest
  import B = Bytes

  const U64_MAX: nat := 0xFFFF_FFFF_FFFF_FFFF

  datatype ComputeError =
    | CaptureCommitmentMismatch | CaptureManifest(parse: M.ParseError)
    | CaptureCountMismatch | SourcePreimageCountMismatch
    | ZeroSourceId | SourceIdsNotStrictlySorted | ZeroSnapshot | DuplicateSnapshot | ZeroFamilyId
    | CompositeSourceForbidden | UnadmittedSourceProgram | WrongSourceOutputDomain | SourceNotRequired
    | InvalidSourceWeight | InvalidSourceAge | StaleSource | InvalidSourceTotal | InvalidSourceWeightSum
    | PolicyManifestMismatch | SourcePolicyRootMismatch
    | AggregateBlobByteLimit | CidDigestMismatch | BlobSha256Mismatch | CidMismatch | SourceBlobMalformed
    | TooManyEntries | TotalOverflow | SourceTotalMismatch | SourceRootMismatch
    | AggregateEntryLimit | UnionAccountLimit
    | BlendFailed(blend: BlendError)

  /** The parameters that `compute` reads after `Params::validate` has passed. */
  datatype Params = Params(
    chainId: B.U64, outputPool: B.U128, sourceCount: nat, maxEntriesPerSource: nat, maxAggregateEntries: nat,
    maxUnionAccounts: nat, maxAggregateBlobBytes: nat, maxSourceAgeBlocks: nat)

  /** The closed compatibility class: program ids with their sole admitted output domains. */
  datatype Programs = Programs(compose: nat, standard: nat, standardDomain: nat, weighted: nat, weightedDomain: nat)

  /** A source blob with the outcome of every digest comparison; `entries` is what it decodes to. */
  datatype SourcePreimage = SourcePreimage(
    blobBytes: nat, cidDigestMatches: bool, sha256Matches: bool, cidMatches: bool,
    entries: Option<seq<Item>>, rootMatches: bool)

  datatype GuestInput = GuestInput(
    params: Params, programs: Programs, manifest: seq<B.Byte>, captureMatches: bool, captureCount: nat,
    policyManifestMatches: bool, policyRootMatches: bool, preimages: seq<SourcePreimage>)

  /** The canonical blob decoder returns ascending accounts with positive 128-bit values. */
  ghost predicate Canonical(entries: seq<Item>) {
    entries != [] && AscendingKeys(entries) && PositiveValues(entries)
      && forall i :: 0 <= i < |entries| ==> entries[i].value <= U128_MAX
  }

  ghost predicate DecoderContract(input: GuestInput) {
    forall i :: 0 <= i < |input.preimages| && input.preimages[i].entries.Some? ==>
      Canonical(input.preimages[i].entries.value)
  }

  // ---- static policy -----------------------------------------------------

  function AdmittedDomain(programs: Programs, program: nat): Option<nat> {
    if program == programs.standard then Some(programs.standardDomain)
    else if program == programs.weighted then Some(programs.weightedDomain)
    else None
  }

  /** What the policy loop carries from source to source. */
  datatype PolicyState = PolicyState(previousId: Option<nat>, snapshots: set<nat>, weightSum: nat)

  function SourcePolicyError(input: GuestInput, captureBlock: nat, state: PolicyState,
                             s: M.CapturedSource): Option<ComputeError>
  {
    if s.sourceId == 0 then Some(ZeroSourceId)
    else if state.previousId.Some? && state.previousId.value >= s.sourceId then Some(SourceIdsNotStrictlySorted)
    else if s.snapshot == 0 then Some(ZeroSnapshot)
    else if s.snapshot in state.snapshots then Some(DuplicateSnapshot)
    else if s.familyId == 0 then Some(ZeroFamilyId)
    else if s.programId == input.programs.compose then Some(CompositeSourceForbidden)
    else if AdmittedDomain(input.programs, s.programId).None? then Some(UnadmittedSourceProgram)
    else if s.sourceOutputDomain != AdmittedDomain(input.programs, s.programId).value then Some(WrongSourceOutputDomain)
    else if !s.required then Some(SourceNotRequired)
    else if s.weight == 0 then Some(InvalidSourceWeight)
    else if s.maxAgeBlocks == 0 || s.maxAgeBlocks > input.params.maxSourceAgeBlocks then Some(InvalidSourceAge)
    else if s.freezeBlock > captureBlock || captureBlock - s.freezeBlock > s.maxAgeBlocks then Some(StaleSource)
    else if s.totalValue == 0 then Some(InvalidSourceTotal)
    else None
  }

  function Advance(state: PolicyState, s: M.CapturedSource): PolicyState {
    PolicyState(Some(s.sourceId), state.snapshots + {s.snapshot}, state.weightSum + s.weight)
  }

  datatype Scan = Clean(state: PolicyState) | Violation(error: ComputeError)

  function PolicyScan(input: GuestInput, captureBlock: nat, sources: seq<M.CapturedSource>): Scan
  {
    if sources == [] then Clean(PolicyState(None, {}, 0)) else
      var last := sources[|sources| - 1];
      match PolicyScan(input, captureBlock, sources[..|sources| - 1])
      case Violation(e) => Violation(e)
      case Clean(state) =>
        var error := SourcePolicyError(input, captureBlock, state, last);
        if error.Some? then Violation(error.value) else Clean(Advance(state, last))
  }

  lemma {:induction false} PolicyScanStops(input: GuestInput, captureBlock: nat, sources: seq<M.CapturedSource>, n: nat)
    requires n <= |sources| && PolicyScan(input, captureBlock, sources[..n]).Violation?
    ensures PolicyScan(input, captureBlock, sources) == PolicyScan(input, captureBlock, sources[..n])
    decreases |sources| - n
  {
    if n < |sources| {
      assert sources[..n + 1][..n] == sources[..n];
      PolicyScanStops(input, captureBlock, sources, n + 1);
    } else {
      assert sources[..n] == sources;
    }
  }

  function Weights(sources: seq<M.CapturedSource>): seq<int> {
    seq(|sources|, i requires 0 <= i < |sources| => sources[i].weight)
  }

  /** The static policy, said about the whole list. */
  ghost predicate AdmittedSources(sources: seq<M.CapturedSource>) {
    && (forall i, j :: 0 <= i < j < |sources| ==> sources[i].sourceId < sources[j].sourceId)
    && (forall i, j :: 0 <= i < j < |sources| ==> sources[i].snapshot != sources[j].snapshot)
    && (forall i :: 0 <= i < |sources| ==> sources[i].weight > 0 && sources[i].totalValue > 0 && sources[i].required)
  }

  lemma {:induction false} PolicyScanState(input: GuestInput, captureBlock: nat, sources: seq<M.CapturedSource>)
    requires PolicyScan(input, captureBlock, sources).Clean?
    ensures PolicyScan(input, captureBlock, sources).state.previousId
      == (if sources == [] then None else Some(sources[|sources| - 1].sourceId))
    ensures PolicyScan(input, captureBlock, sources).state.weightSum == Sum(Weights(sources))
    ensures forall i :: 0 <= i < |sources| ==>
      sources[i].snapshot in PolicyScan(input, captureBlock, sources).state.snapshots
  {
    if sources != [] {
      var n := |sources| - 1;
      PolicyScanState(input, captureBlock, sources[..n]);
      assert Weights(sources)[..n] == Weights(sources[..n]);
      forall i | 0 <= i < n
        ensures sources[i].snapshot in PolicyScan(input, captureBlock, sources[..n]).state.snapshots
      {
        assert sources[..n][i] == sources[i];
      }
    }
  }

  lemma Extends(sources: seq<M.CapturedSource>, last: M.CapturedSource)
    requires AdmittedSources(sources)
    requires sources != [] ==> sources[|sources| - 1].sourceId < last.sourceId
    requires forall i :: 0 <= i < |sources| ==> sources[i].snapshot != last.snapshot
    requires last.weight > 0 && last.totalValue > 0 && last.required
    ensures AdmittedSources(sources + [last])
  {
  }

  /** A clean scan means the policy holds of the whole list. */
  lemma {:induction false} PolicyScanAdmits(input: GuestInput, captureBlock: nat, sources: seq<M.CapturedSource>)
    requires PolicyScan(input, captureBlock, sources).Clean?
    ensures AdmittedSources(sources)
  {
    if sources != [] {
      var n := |sources| - 1;
      PolicyScanAdmits(input, captureBlock, sources[..n]);
      PolicyScanState(input, captureBlock, sources[..n]);
      Extends(sources[..n], sources[n]);
      assert sources == sources[..n] + [sources[n]];
    }
  }

  /** At most 255 weights of 64 bits: the checked 128-bit sum cannot overflow. */
  lemma {:induction false} WeightSumFits(sources: seq<M.CapturedSource>)
    ensures 0 <= Sum(Weights(sources)) <= |sources| * U64_MAX
  {
    SumMonotone(Weights(sources), seq(|sources|, _ => U64_MAX));
    SumConstant(seq(|sources|, _ => U64_MAX), U64_MAX);
    SumMonotone(seq(|sources|, _ => 0), Weights(sources));
    SumConstant(seq(|sources|, _ => 0), 0);
  }

  method CheckPolicy(input: GuestInput, captureBlock: nat, sources: seq<M.CapturedSource>) returns (r: Scan)
    requires |sources| <= 255
    ensures r == PolicyScan(input, captureBlock, sources)
  {
    var state := PolicyState(None, {}, 0);
    for i := 0 to |sources|
      invariant PolicyScan(input, captureBlock, sources[..i]) == Clean(state)
    {
      assert sources[..i + 1][..i] == sources[..i];
      var error := SourcePolicyError(input, captureBlock, state, sources[i]);
      if error.Some? {
        PolicyScanStops(input, captureBlock, sources, i + 1);
        return Violation(error.value);
      }
      PolicyScanState(input, captureBlock, sources[..i + 1]);
      WeightSumFits(sources[..i + 1]);
      if state.weightSum + sources[i].weight > U128_MAX { assert false; }
      state := Advance(state, sources[i]);
    }
    assert sources[..|sources|] == sources;
    r := Clean(state);
  }

  // ---- source blobs ------------------------------------------------------

  function BlobError(input: GuestInput, s: M.CapturedSource, p: SourcePreimage): Option<ComputeError>
  {
    if !p.cidDigestMatches then Some(CidDigestMismatch)
    else if !p.sha256Matches then Some(BlobSha256Mismatch)
    else if !p.cidMatches then Some(CidMismatch)
    else if p.entries.None? then Some(SourceBlobMalformed)
    else if |p.entries.value| > input.params.maxEntriesPerSource then Some(TooManyEntries)
    else if Sum(Values(p.entries.value)) > U128_MAX then Some(TotalOverflow)
    else if Sum(Values(p.entries.value)) != s.totalValue then Some(SourceTotalMismatch)
    else if !p.rootMatches then Some(SourceRootMismatch)
    else None
  }

  datatype Validation = Validated(source: ValidatedSource) | Refused(error: ComputeError)

  function ValidatedFrom(s: M.CapturedSource, entries: seq<Item>): ValidatedSource {
    ValidatedSource(s.sourceId, s.totalValue, s.weight, entries)
  }

  /** `validate_source_blob`. */
  method ValidateSourceBlob(input: GuestInput, s: M.CapturedSource, p: SourcePreimage) returns (r: Validation)
    requires p.entries.Some? ==> Canonical(p.entries.value)
    ensures BlobError(input, s, p).Some? ==> r == Refused(BlobError(input, s, p).value)
    ensures BlobError(input, s, p).None? ==> p.entries.Some? && r == Validated(ValidatedFrom(s, p.entries.value))
  {
    if !p.cidDigestMatches { return Refused(CidDigestMismatch); }
    if !p.sha256Matches { return Refused(BlobSha256Mismatch); }
    if !p.cidMatches { return Refused(CidMismatch); }
    if p.entries.None? { return Refused(SourceBlobMalformed); }
    var entries := p.entries.value;
    if |entries| > input.params.maxEntriesPerSource { return Refused(TooManyEntries); }
    var total: nat := 0;
    for i := 0 to |entries|
      invariant total == Sum(Values(entries)[..i]) <= U128_MAX
    {
      SumPrefix(Values(entries), i + 1);
      PrefixWithin(Values(entries), i + 1);
      if total + entries[i].value > U128_MAX { return Refused(TotalOverflow); }
      total := total + entries[i].value;
    }
    assert Values(entries)[..|entries|] == Values(entries);
    if total != s.totalValue { return Refused(SourceTotalMismatch); }
    if !p.rootMatches { return Refused(SourceRootMismatch); }
    r := Validated(ValidatedFrom(s, entries));
  }

  // ---- all checks before the blend ---------------------------------------

  function BlobBytes(preimages: seq<SourcePreimage>): seq<int> {
    seq(|preimages|, i requires 0 <= i < |preimages| => preimages[i].blobBytes)
  }

  datatype Validations = AllValid(sources: seq<ValidatedSource>) | SomeRefused(error: ComputeError)

  /** The blobs in source order; the first refusal stops. */
  function ValidateAll(input: GuestInput, sources: seq<M.CapturedSource>, n: nat): (r: Validations)
    requires n <= |sources| == |input.preimages|
    ensures r.AllValid? ==> |r.sources| == n
  {
    if n == 0 then AllValid([]) else
      match ValidateAll(input, sources, n - 1)
      case SomeRefused(e) => SomeRefused(e)
      case AllValid(vs) =>
        var s, p := sources[n - 1], input.preimages[n - 1];
        var error := BlobError(input, s, p);
        if error.Some? then SomeRefused(error.value)
        else if p.entries.None? then SomeRefused(SourceBlobMalformed)
        else AllValid(vs + [ValidatedFrom(s, p.entries.value)])
  }

  function EntryCounts(vs: seq<ValidatedSource>): seq<int> {
    seq(|vs|, i requires 0 <= i < |vs| => |vs[i].entries|)
  }

  function Accounts(entries: seq<Item>): set<nat> { set e | e in entries :: e.key }

  function UnionAccounts(vs: seq<ValidatedSource>): set<nat>
  {
    if vs == [] then {} else UnionAccounts(vs[..|vs| - 1]) + Accounts(vs[|vs| - 1].entries)
  }

  /** Everything `compute` checks before it divides: the first failing check, or the validated sources. */
  function Checks(input: GuestInput): Validations
  {
    if !input.captureMatches then SomeRefused(CaptureCommitmentMismatch) else
      match M.Parse(input.manifest, input.params.chainId)
      case Malformed(e) => SomeRefused(CaptureManifest(e))
      case Manifest(m) => ManifestChecks(input, m)
  }

  function ManifestChecks(input: GuestInput, m: M.CapturedManifest): Validations
  {
    if input.captureCount != |m.sources| || input.params.sourceCount != |m.sources|
    then SomeRefused(CaptureCountMismatch)
    else if |input.preimages| != |m.sources| then SomeRefused(SourcePreimageCountMismatch)
    else
      match PolicyScan(input, m.captureBlock, m.sources)
      case Violation(e) => SomeRefused(e)
      case Clean(state) =>
        if state.weightSum != WEIGHT_SCALE then SomeRefused(InvalidSourceWeightSum)
        else if !input.policyManifestMatches then SomeRefused(PolicyManifestMismatch)
        else if !input.policyRootMatches then SomeRefused(SourcePolicyRootMismatch)
        else if Sum(BlobBytes(input.preimages)) > input.params.maxAggregateBlobBytes
        then SomeRefused(AggregateBlobByteLimit)
        else
          match ValidateAll(input, m.sources, |m.sources|)
          case SomeRefused(e) => SomeRefused(e)
          case AllValid(vs) => SizeChecks(input, vs)
  }

  function SizeChecks(input: GuestInput, vs: seq<ValidatedSource>): Validations
  {
    if Sum(EntryCounts(vs)) > input.params.maxAggregateEntries then SomeRefused(AggregateEntryLimit)
    else if |UnionAccounts(vs)| > input.params.maxUnionAccounts then SomeRefused(UnionAccountLimit)
    else AllValid(vs)
  }

  lemma {:induction false} ValidateAllAligned(input: GuestInput, sources: seq<M.CapturedSource>, n: nat, i: nat)
    requires i < n <= |sources| == |input.preimages|
    requires DecoderContract(input) && ValidateAll(input, sources, n).AllValid?
    ensures var v := ValidateAll(input, sources, n).sources[i];
      v.sourceId == sources[i].sourceId && v.weight == sources[i].weight && v.totalValue == sources[i].totalValue
      && AscendingKeys(v.entries) && PositiveValues(v.entries) && Sum(Values(v.entries)) == v.totalValue <= U128_MAX
  {
    if i < n - 1 { ValidateAllAligned(input, sources, n - 1, i); }
  }

  lemma ReadyAt(input: GuestInput, sources: seq<M.CapturedSource>, i: nat)
    requires i < |sources| == |input.preimages| && DecoderContract(input)
    requires AdmittedSources(sources) && Sum(Weights(sources)) == WEIGHT_SCALE
    requires ValidateAll(input, sources, |sources|).AllValid?
    ensures var vs := ValidateAll(input, sources, |sources|).sources;
      ReadySource(vs[i]) && WeightItems(vs)[i] == Item(sources[i].sourceId, sources[i].weight)
  {
    ValidateAllAligned(input, sources, |sources|, i);
    SumAtLeastTerm(Weights(sources), i);
  }

  ghost predicate AlignedWith(vs: seq<ValidatedSource>, sources: seq<M.CapturedSource>) {
    |vs| == |sources| && forall i :: 0 <= i < |vs| ==>
      ReadySource(vs[i]) && WeightItems(vs)[i] == Item(sources[i].sourceId, sources[i].weight)
  }

  lemma AlignedReady(vs: seq<ValidatedSource>, sources: seq<M.CapturedSource>)
    requires AlignedWith(vs, sources) && AdmittedSources(sources) && Sum(Weights(sources)) == WEIGHT_SCALE
    ensures Ready(vs)
  {
    assert Values(WeightItems(vs)) == Weights(sources);
  }

  /** What passes the checks is ready to be blended. */
  lemma AdmittedReady(input: GuestInput, sources: seq<M.CapturedSource>)
    requires |sources| == |input.preimages| && DecoderContract(input)
    requires AdmittedSources(sources) && Sum(Weights(sources)) == WEIGHT_SCALE
    requires ValidateAll(input, sources, |sources|).AllValid?
    ensures Ready(ValidateAll(input, sources, |sources|).sources)
  {
    var vs := ValidateAll(input, sources, |sources|).sources;
    forall i | 0 <= i < |vs|
      ensures ReadySource(vs[i]) && WeightItems(vs)[i] == Item(sources[i].sourceId, sources[i].weight)
    {
      ReadyAt(input, sources, i);
    }
    AlignedReady(vs, sources);
  }

  /** The checks hand over nothing that could make the blend fail late. */
  lemma ChecksReady(input: GuestInput)
    requires DecoderContract(input) && Checks(input).AllValid?
    ensures Ready(Checks(input).sources)
  {
    var m := M.Parse(input.manifest, input.params.chainId).value;
    PolicyScanState(input, m.captureBlock, m.sources);
    PolicyScanAdmits(input, m.captureBlock, m.sources);
    AdmittedReady(input, m.sources);
  }

  datatype Computed = Success(composed: Composed) | Failure(error: ComputeError)

  method ValidateBlobs(input: GuestInput, sources: seq<M.CapturedSource>) returns (r: Validations)
    requires |sources| == |input.preimages| && DecoderContract(input)
    ensures r == ValidateAll(input, sources, |sources|)
  {
    var validated: seq<ValidatedSource> := [];
    for i := 0 to |sources|
      invariant ValidateAll(input, sources, i) == AllValid(validated)
    {
      var one := ValidateSourceBlob(input, sources[i], input.preimages[i]);
      if one.Refused? {
        ValidateAllStops(input, sources, i + 1, |sources|);
        return SomeRefused(one.error);
      }
      validated := validated + [one.source];
    }
    r := AllValid(validated);
  }

  lemma {:induction false} ValidateAllStops(input: GuestInput, sources: seq<M.CapturedSource>, i: nat, n: nat)
    requires i <= n <= |sources| == |input.preimages|
    requires ValidateAll(input, sources, i).SomeRefused?
    ensures ValidateAll(input, sources, n) == ValidateAll(input, sources, i)
  {
    if i < n { ValidateAllStops(input, sources, i, n - 1); }
  }

  method CheckSizes(input: GuestInput, vs: seq<ValidatedSource>) returns (r: Validations)
    ensures r == SizeChecks(input, vs)
  {
    var count: int := 0;
    var union: set<nat> := {};
    for i := 0 to |vs|
      invariant count == Sum(EntryCounts(vs)[..i])
      invariant union == UnionAccounts(vs[..i])
    {
      SumPrefix(EntryCounts(vs), i + 1);
      assert vs[..i + 1][..i] == vs[..i];
      count := count + |vs[i].entries|;
      union := union + Accounts(vs[i].entries);
    }
    assert EntryCounts(vs)[..|vs|] == EntryCounts(vs) && vs[..|vs|] == vs;
    if count > input.params.maxAggregateEntries { return SomeRefused(AggregateEntryLimit); }
    if |union| > input.params.maxUnionAccounts { return SomeRefused(UnionAccountLimit); }
    r := AllValid(vs);
  }

  method CheckManifest(input: GuestInput, m: M.CapturedManifest) returns (r: Validations)
    requires |m.sources| <= 255 && DecoderContract(input)
    ensures r == ManifestChecks(input, m)
  {
    if input.captureCount != |m.sources| { return SomeRefused(CaptureCountMismatch); }
    if input.params.sourceCount != |m.sources| { return SomeRefused(CaptureCountMismatch); }
    if |input.preimages| != |m.sources| { return SomeRefused(SourcePreimageCountMismatch); }
    var scan := CheckPolicy(input, m.captureBlock, m.sources);
    if scan.Violation? { return SomeRefused(scan.error); }
    if scan.state.weightSum != WEIGHT_SCALE { return SomeRefused(InvalidSourceWeightSum); }
    if !input.policyManifestMatches { return SomeRefused(PolicyManifestMismatch); }
    if !input.policyRootMatches { return SomeRefused(SourcePolicyRootMismatch); }
    if Sum(BlobBytes(input.preimages)) > input.params.maxAggregateBlobBytes {
      return SomeRefused(AggregateBlobByteLimit);
    }
    var validated := ValidateBlobs(input, m.sources);
    if validated.SomeRefused? { return validated; }
    r := CheckSizes(input, validated.sources);
  }

  /** `compute`: after the checks, the one remaining failure is a zero source quota. */
  method Compute(input: GuestInput) returns (r: Computed)
    requires DecoderContract(input)
    ensures Checks(input).SomeRefused? ==> r == Failure(Checks(input).error)
    ensures Checks(input).AllValid? ==>
      Ready(Checks(input).sources) && BlendOutcome(input.params.outputPool, Checks(input).sources, r)
  {
    if !input.captureMatches { return Failure(CaptureCommitmentMismatch); }
    var parsed := M.ParseManifest(input.manifest, input.params.chainId);
    if parsed.Malformed? { return Failure(CaptureManifest(parsed.error)); }
    var checked := CheckManifest(input, parsed.value);
    assert checked == Checks(input);
    if checked.SomeRefused? { return Failure(checked.error); }
    ChecksReady(input);
    var blended := BlendSources(input.params.outputPool, checked.sources);
    if blended.Rejected? { return Failure(BlendFailed(blended.error)); }
    r := Success(blended.composed);
  }

  /** Success with the blend when every quota is positive; otherwise the first zero quota is named. */
  ghost predicate BlendOutcome(pool: nat, vs: seq<ValidatedSource>, r: Computed)
    requires Ready(vs)
  {
    if PositiveQuotas(Quotas(pool, vs), |vs|) then r == Success(BlendResult(pool, vs))
    else exists i: nat ::
      FirstZeroQuota(pool, vs, i) && r == Failure(BlendFailed(RequiredSourceReceivedZero(vs[i].sourceId)))
  }
}
