/** What an accepted registry trace satisfies, field by field and event by event: `verifyTrace` of
    research/erc8004-completeness/reference.ts. */
module TraceAdmission {
  import opened Wrappers
  import opened Bytes
  import opened EventCodec
  import opened Trace

  // ---- the running implementation ----------------------------------------------------

  /** Event `j` is the last activation or upgrade of the registry before place `n`. */
  ghost predicate LastSwitch(events: seq<Event>, n: nat, registry: nat, j: nat) {
    && j < n <= |events| && Switches(events[j], registry)
    && forall k :: j < k < n ==> !Switches(events[k], registry)
  }

  ghost predicate Runs(events: seq<Event>, n: nat, registry: nat, codeHash: B256) {
    exists j: nat :: LastSwitch(events, n, registry, j) && events[j].codeHash == codeHash
  }

  ghost predicate NeverSwitched(events: seq<Event>, n: nat, registry: nat)
    requires n <= |events|
  {
    forall k :: 0 <= k < n ==> !Switches(events[k], registry)
  }

  lemma {:induction false} EpochIsLastSwitch(events: seq<Event>, n: nat, registry: nat)
    requires n <= |events|
    ensures Epoch(events, n, registry).None? <==> NeverSwitched(events, n, registry)
    ensures Epoch(events, n, registry).Some? ==> Runs(events, n, registry, Epoch(events, n, registry).value)
  {
    if n > 0 {
      EpochIsLastSwitch(events, n - 1, registry);
      if Switches(events[n - 1], registry) {
        assert LastSwitch(events, n, registry, n - 1);
      } else if Epoch(events, n - 1, registry).Some? {
        var j: nat :| LastSwitch(events, n - 1, registry, j)
          && events[j].codeHash == Epoch(events, n - 1, registry).value;
        assert LastSwitch(events, n, registry, j);
      }
    }
  }

  lemma LastSwitchUnique(events: seq<Event>, n: nat, registry: nat, i: nat, j: nat)
    requires LastSwitch(events, n, registry, i) && LastSwitch(events, n, registry, j)
    ensures i == j
  {
  }

  lemma EpochRuns(events: seq<Event>, n: nat, registry: nat, codeHash: B256)
    requires n <= |events|
    ensures Epoch(events, n, registry) == Some(codeHash) <==> Runs(events, n, registry, codeHash)
  {
    EpochIsLastSwitch(events, n, registry);
    if Runs(events, n, registry, codeHash) {
      var i: nat :| LastSwitch(events, n, registry, i) && events[i].codeHash == codeHash;
      assert !NeverSwitched(events, n, registry);
      var j: nat :| LastSwitch(events, n, registry, j) && events[j].codeHash == Epoch(events, n, registry).value;
      LastSwitchUnique(events, n, registry, i, j);
    }
  }

  // ---- the lawful trace ---------------------------------------------------------------

  /** The checkpoint is the policy's: its digest, its deployment, its finalized fork and its length. */
  ghost predicate RightCheckpoint(h: Hash, events: seq<Event>, c: Checkpoint, policy: Policy) {
    && c.digest == Digest(h, c)
    && c.chainId == policy.chainId && c.accumulator == policy.accumulator
    && c.identityRegistry == policy.identityRegistry && c.reputationRegistry == policy.reputationRegistry
    && c.activationBlock == policy.activationBlock && c.eventSetVersion == policy.eventSetVersion
    && c.endBlockHash == policy.finalizedEndBlockHash && c.count == |events|
  }

  /** The event stands in its place: contiguous, of the pair, inside the blocks, and available. */
  ghost predicate InPlace(events: seq<Event>, i: nat, c: Checkpoint, policy: Policy)
    requires i < |events|
  {
    var e := events[i];
    && e.sequence == i && e.chainId == policy.chainId
    && (e.registry == policy.identityRegistry || e.registry == policy.reputationRegistry)
    && policy.activationBlock <= e.blockNumber <= c.endBlock
    && e.eventSetVersion == policy.eventSetVersion
    && (policy.available.Some? ==> i in policy.available.value)
    && e.kind != 11
  }

  /** A registry is activated once, before anything else; only approved code is activated or upgraded to; and
      every other event runs the code of the last switch. */
  ghost predicate RunsApproved(events: seq<Event>, i: nat, approved: set<B256>)
    requires i < |events|
  {
    var e := events[i];
    if e.kind == 9 then NeverSwitched(events, i, e.registry) && e.codeHash in approved
    else if e.kind == 10 then !NeverSwitched(events, i, e.registry) && e.codeHash in approved
    else Runs(events, i, e.registry, e.codeHash)
  }

  ghost predicate Lawful(h: Hash, events: seq<Event>, c: Checkpoint, policy: Policy) {
    && RightCheckpoint(h, events, c, policy)
    && (forall i :: 0 <= i < |events| ==> InPlace(events, i, c, policy) && RunsApproved(events, i, policy.approved))
    && c.head == Head(h, events) && c.preimageCommitment == PreimageHead(h, events)
    && Runs(events, |events|, policy.identityRegistry, c.identityCodeHash)
    && Runs(events, |events|, policy.reputationRegistry, c.reputationCodeHash)
  }

  lemma FaultlessEvent(events: seq<Event>, i: nat, c: Checkpoint, policy: Policy)
    requires i < |events|
    ensures EventFault(events, i, c, policy).None?
      <==> InPlace(events, i, c, policy) && RunsApproved(events, i, policy.approved)
  {
    EpochIsLastSwitch(events, i, events[i].registry);
    EpochRuns(events, i, events[i].registry, events[i].codeHash);
  }

  /** A trace is accepted exactly when it is lawful. */
  lemma AcceptedIsLawful(h: Hash, events: seq<Event>, c: Checkpoint, policy: Policy)
    ensures Outcome(h, events, c, policy).Accepted? <==> Lawful(h, events, c, policy)
  {
    AcceptedExactly(h, events, c, policy);
    forall i | 0 <= i < |events|
      ensures EventFault(events, i, c, policy).None?
        <==> InPlace(events, i, c, policy) && RunsApproved(events, i, policy.approved)
    {
      FaultlessEvent(events, i, c, policy);
    }
    EpochRuns(events, |events|, policy.identityRegistry, c.identityCodeHash);
    EpochRuns(events, |events|, policy.reputationRegistry, c.reputationCodeHash);
  }
}
