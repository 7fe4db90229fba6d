/** What a composition input satisfies once every check has passed, and that nothing else is asked of it:
    crates/composition-core/src/compute.rs:22-195. */
module ComposeAdmission {
  import opened Wrappers
  import opened Totals
  import opened Hamilton
  import opened Composition
  import opened Compute
  import M = Manifest

  // ---- the policy -------------------------------------------------------------------

  /** One source on its own: identified, admitted with its sole domain, required, weighted, and fresh at capture. */
  ghost predicate SourceFit(params: Params, programs: Programs, captureBlock: nat, s: M.CapturedSource) {
    && s.sourceId != 0 && s.snapshot != 0 && s.familyId != 0
    && s.programId != programs.compose
    && ((s.programId == programs.standard && s.sourceOutputDomain == programs.standardDomain)
        || (s.programId == programs.weighted && s.programId != programs.standard
            && s.sourceOutputDomain == programs.weightedDomain))
    && s.required && s.weight > 0 && s.totalValue > 0
    && 0 < s.maxAgeBlocks <= params.maxSourceAgeBlocks
    && s.freezeBlock <= captureBlock <= s.freezeBlock + s.maxAgeBlocks
  }

  /** Strictly ascending ids and distinct snapshots. */
  ghost predicate SourcesApart(sources: seq<M.CapturedSource>) {
    forall i, j :: 0 <= i < j < |sources| ==>
      sources[i].sourceId < sources[j].sourceId && sources[i].snapshot != sources[j].snapshot
  }

  ghost predicate PolicyFit(input: GuestInput, captureBlock: nat, sources: seq<M.CapturedSource>) {
    && SourcesApart(sources)
    && forall i :: 0 <= i < |sources| ==> SourceFit(input.params, input.programs, captureBlock, sources[i])
  }

  lemma SourceErrorMeaning(input: GuestInput, captureBlock: nat, state: PolicyState, s: M.CapturedSource)
    ensures SourcePolicyError(input, captureBlock, state, s).None? <==>
      && SourceFit(input.params, input.programs, captureBlock, s)
      && (state.previousId.Some? ==> state.previousId.value < s.sourceId) && s.snapshot !in state.snapshots
  {
  }

  lemma {:induction false} ScanSnapshots(input: GuestInput, captureBlock: nat, sources: seq<M.CapturedSource>, x: nat)
    requires PolicyScan(input, captureBlock, sources).Clean?
    ensures x in PolicyScan(input, captureBlock, sources).state.snapshots
      <==> exists i :: 0 <= i < |sources| && sources[i].snapshot == x
  {
    if sources != [] {
      var n := |sources| - 1;
      ScanSnapshots(input, captureBlock, sources[..n], x);
      if i :| 0 <= i < n && sources[..n][i].snapshot == x { assert sources[i].snapshot == x; }
      if i :| 0 <= i < |sources| && sources[i].snapshot == x && i < n { assert sources[..n][i].snapshot == x; }
    }
  }

  lemma ApartSnoc(sources: seq<M.CapturedSource>, n: nat)
    requires n + 1 == |sources|
    ensures SourcesApart(sources) <==>
      && SourcesApart(sources[..n])
      && forall i :: 0 <= i < n ==>
        sources[i].sourceId < sources[n].sourceId && sources[i].snapshot != sources[n].snapshot
  {
    forall i, j | SourcesApart(sources) && 0 <= i < j < n
      ensures sources[..n][i].sourceId < sources[..n][j].sourceId
      ensures sources[..n][i].snapshot != sources[..n][j].snapshot
    {
      assert sources[..n][i] == sources[i] && sources[..n][j] == sources[j];
    }
    forall i, j | SourcesApart(sources[..n]) && 0 <= i < j < n
      ensures sources[i].sourceId < sources[j].sourceId && sources[i].snapshot != sources[j].snapshot
    {
      assert sources[..n][i] == sources[i] && sources[..n][j] == sources[j];
    }
  }

  lemma FitSnoc(input: GuestInput, captureBlock: nat, sources: seq<M.CapturedSource>, n: nat)
    requires n + 1 == |sources|
    ensures PolicyFit(input, captureBlock, sources) <==>
      && PolicyFit(input, captureBlock, sources[..n])
      && SourceFit(input.params, input.programs, captureBlock, sources[n])
      && forall i :: 0 <= i < n ==>
        sources[i].sourceId < sources[n].sourceId && sources[i].snapshot != sources[n].snapshot
  {
    ApartSnoc(sources, n);
    assert forall i :: 0 <= i < n ==> sources[..n][i] == sources[i];
    if PolicyFit(input, captureBlock, sources[..n])
      && SourceFit(input.params, input.programs, captureBlock, sources[n]) {
      forall i | 0 <= i < |sources| ensures SourceFit(input.params, input.programs, captureBlock, sources[i]) {
        if i < n { assert sources[..n][i] == sources[i]; }
      }
    }
  }

  /** The scan is clean exactly when the policy is fit. */
  lemma {:induction false} CleanIsFit(input: GuestInput, captureBlock: nat, sources: seq<M.CapturedSource>)
    ensures PolicyScan(input, captureBlock, sources).Clean? <==> PolicyFit(input, captureBlock, sources)
  {
    if sources != [] {
      var n := |sources| - 1;
      CleanIsFit(input, captureBlock, sources[..n]);
      FitSnoc(input, captureBlock, sources, n);
      if PolicyScan(input, captureBlock, sources[..n]).Clean? {
        var state := PolicyScan(input, captureBlock, sources[..n]).state;
        SourceErrorMeaning(input, captureBlock, state, sources[n]);
        PolicyScanState(input, captureBlock, sources[..n]);
        ScanSnapshots(input, captureBlock, sources[..n], sources[n].snapshot);
        LastIdBounds(sources, n, state);
      }
    }
  }

  /** With ascending ids it is enough to compare with the last one. */
  lemma LastIdBounds(sources: seq<M.CapturedSource>, n: nat, state: PolicyState)
    requires n + 1 == |sources| && SourcesApart(sources[..n])
    requires state.previousId == if n == 0 then None else Some(sources[..n][n - 1].sourceId)
    ensures (state.previousId.Some? ==> state.previousId.value < sources[n].sourceId)
      <==> forall i :: 0 <= i < n ==> sources[i].sourceId < sources[n].sourceId
  {
    forall i | 0 <= i < n ensures sources[i].sourceId <= sources[n - 1].sourceId {
      if i < n - 1 { assert sources[..n][i].sourceId < sources[..n][n - 1].sourceId; }
    }
  }

  // ---- the blobs ---------------------------------------------------------------------

  /** One blob: every digest right, decodable, within the entry limit, and of the captured total and root. */
  ghost predicate BlobFit(params: Params, s: M.CapturedSource, p: SourcePreimage) {
    && p.cidDigestMatches && p.sha256Matches && p.cidMatches && p.rootMatches && p.entries.Some?
    && |p.entries.value| <= params.maxEntriesPerSource
    && Sum(Values(p.entries.value)) == s.totalValue <= U128_MAX
  }

  lemma BlobErrorMeaning(input: GuestInput, s: M.CapturedSource, p: SourcePreimage)
    ensures BlobError(input, s, p).None? <==> BlobFit(input.params, s, p)
  {
  }

  lemma {:induction false} AllBlobsFit(input: GuestInput, sources: seq<M.CapturedSource>, n: nat)
    requires n <= |sources| == |input.preimages|
    ensures ValidateAll(input, sources, n).AllValid?
      <==> forall i :: 0 <= i < n ==> BlobFit(input.params, sources[i], input.preimages[i])
  {
    if n > 0 {
      AllBlobsFit(input, sources, n - 1);
      BlobErrorMeaning(input, sources[n - 1], input.preimages[n - 1]);
    }
  }

  // ---- the sizes ---------------------------------------------------------------------

  ghost predicate Holds(vs: seq<ValidatedSource>, account: nat) {
    exists i, j :: 0 <= i < |vs| && 0 <= j < |vs[i].entries| && vs[i].entries[j].key == account
  }

  /** The union is the set of accounts that some source holds. */
  lemma {:induction false} UnionHolds(vs: seq<ValidatedSource>, account: nat)
    ensures account in UnionAccounts(vs) <==> Holds(vs, account)
  {
    if vs != [] {
      var n := |vs| - 1;
      UnionHolds(vs[..n], account);
      if Holds(vs[..n], account) {
        var i, j :| 0 <= i < n && 0 <= j < |vs[..n][i].entries| && vs[..n][i].entries[j].key == account;
        assert vs[i].entries[j].key == account;
      }
      if Holds(vs, account) && account !in Accounts(vs[n].entries) {
        var i, j :| 0 <= i < |vs| && 0 <= j < |vs[i].entries| && vs[i].entries[j].key == account;
        HeldByLast(vs, i, j);
        assert vs[..n][i].entries[j].key == account;
      }
      if account in Accounts(vs[n].entries) {
        var j :| 0 <= j < |vs[n].entries| && vs[n].entries[j].key == account;
        assert vs[n].entries[j].key == account;
      }
    }
  }

  lemma HeldByLast(vs: seq<ValidatedSource>, i: nat, j: nat)
    requires i < |vs| && j < |vs[i].entries| && vs[i].entries[j].key !in Accounts(vs[|vs| - 1].entries)
    ensures i < |vs| - 1
  {
    assert vs[i].entries[j] in vs[i].entries;
  }

  ghost predicate HandedAs(s: M.CapturedSource, p: SourcePreimage, v: ValidatedSource) {
    p.entries.Some? && v == ValidatedSource(s.sourceId, s.totalValue, s.weight, p.entries.value)
  }

  /** The sources as they are handed to the blend. */
  ghost predicate HandedOver(input: GuestInput, m: M.CapturedManifest, vs: seq<ValidatedSource>) {
    && |vs| == |m.sources| == |input.preimages|
    && forall i :: 0 <= i < |vs| ==> HandedAs(m.sources[i], input.preimages[i], vs[i])
  }

  ghost predicate WithinSizes(params: Params, vs: seq<ValidatedSource>, union: set<nat>) {
    && Sum(EntryCounts(vs)) <= params.maxAggregateEntries
    && (forall a :: a in union <==> Holds(vs, a)) && |union| <= params.maxUnionAccounts
  }

  // ---- all of it -----------------------------------------------------------------------

  /** What is asked of an input before its sources are blended, all of it. */
  ghost predicate Admitted(input: GuestInput, m: M.CapturedManifest, vs: seq<ValidatedSource>, union: set<nat>) {
    && input.captureMatches && M.Parse(input.manifest, input.params.chainId) == M.Manifest(m)
    && input.captureCount == input.params.sourceCount == |m.sources| == |input.preimages|
    && PolicyFit(input, m.captureBlock, m.sources) && Sum(Weights(m.sources)) == WEIGHT_SCALE
    && input.policyManifestMatches && input.policyRootMatches
    && Sum(BlobBytes(input.preimages)) <= input.params.maxAggregateBlobBytes
    && (forall i :: 0 <= i < |m.sources| ==> BlobFit(input.params, m.sources[i], input.preimages[i]))
    && HandedOver(input, m, vs) && WithinSizes(input.params, vs, union)
  }

  lemma {:induction false} ValidatedAt(input: GuestInput, sources: seq<M.CapturedSource>, n: nat, i: nat)
    requires i < n <= |sources| == |input.preimages| && ValidateAll(input, sources, n).AllValid?
    ensures HandedAs(sources[i], input.preimages[i], ValidateAll(input, sources, n).sources[i])
  {
    if i < n - 1 { ValidatedAt(input, sources, n - 1, i); }
  }

  lemma ValidatedAsHanded(input: GuestInput, m: M.CapturedManifest)
    requires |m.sources| == |input.preimages| && ValidateAll(input, m.sources, |m.sources|).AllValid?
    ensures HandedOver(input, m, ValidateAll(input, m.sources, |m.sources|).sources)
  {
    var vs := ValidateAll(input, m.sources, |m.sources|).sources;
    forall i | 0 <= i < |vs| ensures HandedAs(m.sources[i], input.preimages[i], vs[i]) {
      ValidatedAt(input, m.sources, |m.sources|, i);
    }
  }

  lemma HandedOverUnique(input: GuestInput, m: M.CapturedManifest, a: seq<ValidatedSource>, b: seq<ValidatedSource>)
    requires HandedOver(input, m, a) && HandedOver(input, m, b)
    ensures a == b
  {
  }

  lemma SizesMeaning(input: GuestInput, vs: seq<ValidatedSource>, union: set<nat>)
    requires forall a :: a in union <==> Holds(vs, a)
    ensures SizeChecks(input, vs) == AllValid(vs) <==> WithinSizes(input.params, vs, union)
  {
    forall a ensures a in UnionAccounts(vs) <==> a in union { UnionHolds(vs, a); }
    assert UnionAccounts(vs) == union;
  }

  lemma ManifestAdmits(input: GuestInput, m: M.CapturedManifest)
    requires input.captureMatches && M.Parse(input.manifest, input.params.chainId) == M.Manifest(m)
    requires ManifestChecks(input, m).AllValid?
    ensures exists union :: Admitted(input, m, ManifestChecks(input, m).sources, union)
  {
    var vs := ManifestChecks(input, m).sources;
    CleanIsFit(input, m.captureBlock, m.sources);
    PolicyScanState(input, m.captureBlock, m.sources);
    AllBlobsFit(input, m.sources, |m.sources|);
    ValidatedAsHanded(input, m);
    forall a ensures a in UnionAccounts(vs) <==> Holds(vs, a) { UnionHolds(vs, a); }
    assert Admitted(input, m, vs, UnionAccounts(vs));
  }

  lemma AdmittedPasses(input: GuestInput, m: M.CapturedManifest, vs: seq<ValidatedSource>, union: set<nat>)
    requires Admitted(input, m, vs, union)
    ensures Checks(input) == AllValid(vs)
  {
    CleanIsFit(input, m.captureBlock, m.sources);
    PolicyScanState(input, m.captureBlock, m.sources);
    AllBlobsFit(input, m.sources, |m.sources|);
    ValidatedAsHanded(input, m);
    HandedOverUnique(input, m, vs, ValidateAll(input, m.sources, |m.sources|).sources);
    SizesMeaning(input, vs, union);
  }

  /** The checks pass, and hand over `vs`, exactly when the input is admitted with them. */
  lemma ChecksExactly(input: GuestInput, vs: seq<ValidatedSource>)
    ensures Checks(input) == AllValid(vs) <==> exists m, union :: Admitted(input, m, vs, union)
  {
    if Checks(input) == AllValid(vs) {
      var m := M.Parse(input.manifest, input.params.chainId).value;
      ManifestAdmits(input, m);
    }
    if m, union :| Admitted(input, m, vs, union) { AdmittedPasses(input, m, vs, union); }
  }
}
