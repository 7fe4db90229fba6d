/** Checking a registry trace against a frozen checkpoint: `makeCheckpoint` and `verifyTrace` of
    research/erc8004-completeness/reference.ts. */
module Trace {
  import opened Wrappers
  import opened Bytes
  import opened EventCodec
  import opened Sequences

  const IMPLEMENTATION_ACTIVATED: nat := 9
  const UPGRADED: nat := 10
  const RECOVERY: nat := 11

  const CHECKPOINT_TAG := Ascii("TRUSTGRAPHS_ERC8004_CHECKPOINT_V1")

  datatype Checkpoint = Checkpoint(
    chainId: B256, accumulator: Address, identityRegistry: Address, reputationRegistry: Address,
    activationBlock: U64, endBlock: U64, endBlockHash: B256, count: U64, head: B256, eventSetVersion: B256,
    identityCodeHash: B256, reputationCodeHash: B256, preimageCommitment: B256, digest: B256)

  datatype Policy = Policy(
    chainId: B256, accumulator: Address, identityRegistry: Address, reputationRegistry: Address,
    activationBlock: U64, eventSetVersion: B256, approved: set<B256>, finalizedEndBlockHash: B256,
    available: Option<set<nat>>)

  datatype Rejection =
    | DigestMismatch | ChainMismatch | AccumulatorMismatch | IdentityRegistryMismatch | ReputationRegistryMismatch
    | ActivationBlockMismatch | VersionMismatch | ForkMismatch | CountMismatch
    | NonContiguous | EventChain | OutsidePair | OutsideRange | EventVersion | PreimageUnavailable
    | RecoveryBoundary | AlreadyActive | ActivatesUnreviewed | UpgradesInactive | UpgradesUnreviewed
    | BeforeActivation | EpochMismatch
    | HeadMismatch | PreimageMismatch | IdentityCodeMismatch | ReputationCodeMismatch

  datatype Verified = Accepted(head: B256, count: nat) | Rejected(why: Rejection)

  // ---- checkpoints -----------------------------------------------------------

  function CheckpointWords(h: Hash, c: Checkpoint): seq<nat>
  {
    [h(CHECKPOINT_TAG), c.chainId, c.accumulator, c.identityRegistry, c.reputationRegistry, c.activationBlock,
      c.endBlock,
     c.endBlockHash, c.count, c.head, c.eventSetVersion, c.identityCodeHash, c.reputationCodeHash, c.preimageCommitment]
  }

  function CheckpointBytes(h: Hash, c: Checkpoint): seq<Byte> { Join(Words(CheckpointWords(h, c))) }

  function Digest(h: Hash, c: Checkpoint): B256 { h(CheckpointBytes(h, c)) }

  /** `makeCheckpoint`: the caller's fields with the count and the two heads of the events. */
  function Made(h: Hash, events: seq<Event>, input: Checkpoint): Checkpoint
    requires |events| < 0x1_0000_0000_0000_0000
  {
    var c := input.(count := |events|, head := Head(h, events), preimageCommitment := PreimageHead(h, events));
    c.(digest := Digest(h, c))
  }

  lemma CheckpointWordsFit(h: Hash, c: Checkpoint)
    ensures AllWords(CheckpointWords(h, c))
  {
    WordWidths();
  }

  /** The first seven words of a checkpoint, in their order. */
  lemma CheckpointLayoutFront(h: Hash, c: Checkpoint)
    ensures var bytes := CheckpointBytes(h, c);
      && |bytes| == 448 && WordIn(bytes, 0) == h(CHECKPOINT_TAG) && WordIn(bytes, 1) == c.chainId
      && WordIn(bytes, 2) == c.accumulator && WordIn(bytes, 3) == c.identityRegistry
      && WordIn(bytes, 4) == c.reputationRegistry && WordIn(bytes, 5) == c.activationBlock
      && WordIn(bytes, 6) == c.endBlock
  {
    CheckpointWordsFit(h, c);
    var words := CheckpointWords(h, c);
    WordReads(words, 0);
    WordReads(words, 1);
    WordReads(words, 2);
    WordReads(words, 3);
    WordReads(words, 4);
    WordReads(words, 5);
    WordReads(words, 6);
  }

  /** And the last seven. */
  lemma CheckpointLayoutBack(h: Hash, c: Checkpoint)
    ensures var bytes := CheckpointBytes(h, c);
      && |bytes| == 448 && WordIn(bytes, 7) == c.endBlockHash && WordIn(bytes, 8) == c.count
      && WordIn(bytes, 9) == c.head && WordIn(bytes, 10) == c.eventSetVersion
      && WordIn(bytes, 11) == c.identityCodeHash && WordIn(bytes, 12) == c.reputationCodeHash
      && WordIn(bytes, 13) == c.preimageCommitment
  {
    CheckpointWordsFit(h, c);
    var words := CheckpointWords(h, c);
    WordReads(words, 7);
    WordReads(words, 8);
    WordReads(words, 9);
    WordReads(words, 10);
    WordReads(words, 11);
    WordReads(words, 12);
    WordReads(words, 13);
  }

  /** A digest pins down its checkpoint, field by field. */
  lemma DigestBinds(h: Hash, a: Checkpoint, b: Checkpoint)
    requires Digest(h, a) == Digest(h, b) && CollisionFreeOn(h, {CheckpointBytes(h, a), CheckpointBytes(h, b)})
    ensures a == b.(digest := a.digest)
  {
    CheckpointWordsFit(h, a);
    CheckpointWordsFit(h, b);
    var u, v := CheckpointWords(h, a), CheckpointWords(h, b);
    WordsInjective(u, v);
    assert u[1] == v[1] && u[2] == v[2] && u[3] == v[3] && u[4] == v[4] && u[5] == v[5] && u[6] == v[6] && u[7] == v[7];
    assert u[8] == v[8] && u[9] == v[9] && u[10] == v[10] && u[11] == v[11] && u[12] == v[12] && u[13] == v[13];
  }

  // ---- what a lawful trace is -------------------------------------------------------

  predicate Switches(e: Event, registry: nat) {
    e.registry == registry && (e.kind == IMPLEMENTATION_ACTIVATED || e.kind == UPGRADED)
  }

  /** The code hash of the latest activation or upgrade of a registry among the first `n` events. */
  function Epoch(events: seq<Event>, n: nat, registry: nat): Option<B256>
    requires n <= |events|
  {
    if n == 0 then None
    else if Switches(events[n - 1], registry) then Some(events[n - 1].codeHash)
    else Epoch(events, n - 1, registry)
  }

  /** The tests on an event that look at nothing but its place. */
  function PlaceFault(e: Event, index: nat, c: Checkpoint, policy: Policy): Option<Rejection>
  {
    if e.sequence != index then Some(NonContiguous)
    else if e.chainId != policy.chainId then Some(EventChain)
    else if e.registry != policy.identityRegistry && e.registry != policy.reputationRegistry then Some(OutsidePair)
    else if e.blockNumber < policy.activationBlock || e.blockNumber > c.endBlock then Some(OutsideRange)
    else if e.eventSetVersion != policy.eventSetVersion then Some(EventVersion)
    else if policy.available.Some? && e.sequence !in policy.available.value then Some(PreimageUnavailable)
    else if e.kind == RECOVERY then Some(RecoveryBoundary)
    else None
  }

  /** The tests on an event against the implementation its registry runs. */
  function EpochFault(e: Event, active: Option<B256>, approved: set<B256>): Option<Rejection>
  {
    if e.kind == IMPLEMENTATION_ACTIVATED then
      if active.Some? then Some(AlreadyActive)
      else if e.codeHash !in approved then Some(ActivatesUnreviewed) else None
    else if e.kind == UPGRADED then
      if active.None? then Some(UpgradesInactive)
      else if e.codeHash !in approved then Some(UpgradesUnreviewed) else None
    else if active.None? then Some(BeforeActivation)
    else if active.value != e.codeHash then Some(EpochMismatch)
    else None
  }

  function EventFault(events: seq<Event>, index: nat, c: Checkpoint, policy: Policy): Option<Rejection>
    requires index < |events|
  {
    var place := PlaceFault(events[index], index, c, policy);
    if place.Some? then place
    else EpochFault(events[index], Epoch(events, index, events[index].registry), policy.approved)
  }

  function HeaderFault(h: Hash, count: nat, c: Checkpoint, policy: Policy): Option<Rejection>
  {
    if c.digest != Digest(h, c) then Some(DigestMismatch)
    else if c.chainId != policy.chainId then Some(ChainMismatch)
    else if c.accumulator != policy.accumulator then Some(AccumulatorMismatch)
    else if c.identityRegistry != policy.identityRegistry then Some(IdentityRegistryMismatch)
    else if c.reputationRegistry != policy.reputationRegistry then Some(ReputationRegistryMismatch)
    else if c.activationBlock != policy.activationBlock then Some(ActivationBlockMismatch)
    else if c.eventSetVersion != policy.eventSetVersion then Some(VersionMismatch)
    else if c.endBlockHash != policy.finalizedEndBlockHash then Some(ForkMismatch)
    else if c.count != count then Some(CountMismatch)
    else None
  }

  /** Everything an accepted trace satisfies. */
  ghost predicate Conforms(h: Hash, events: seq<Event>, c: Checkpoint, policy: Policy) {
    && HeaderFault(h, |events|, c, policy).None?
    && (forall i :: 0 <= i < |events| ==> EventFault(events, i, c, policy).None?)
    && Head(h, events) == c.head && PreimageHead(h, events) == c.preimageCommitment
    && Epoch(events, |events|, policy.identityRegistry) == Some(c.identityCodeHash)
    && Epoch(events, |events|, policy.reputationRegistry) == Some(c.reputationCodeHash)
  }

  // ---- the verifier -------------------------------------------------------------------

  /** The fault of the first faulty event among the first `n`. */
  function EventsFault(events: seq<Event>, n: nat, c: Checkpoint, policy: Policy): Option<Rejection>
    requires n <= |events|
  {
    if n == 0 then None
    else if EventsFault(events, n - 1, c, policy).Some? then EventsFault(events, n - 1, c, policy)
    else EventFault(events, n - 1, c, policy)
  }

  ghost predicate FirstFault(events: seq<Event>, i: nat, c: Checkpoint, policy: Policy, fault: Option<Rejection>) {
    && i < |events| && EventFault(events, i, c, policy) == fault
    && forall j :: 0 <= j < i ==> EventFault(events, j, c, policy).None?
  }

  lemma {:induction false} EventsFaultMeaning(events: seq<Event>, n: nat, c: Checkpoint, policy: Policy)
    requires n <= |events|
    ensures EventsFault(events, n, c, policy).None? <==>
      forall i :: 0 <= i < n ==> EventFault(events, i, c, policy).None?
    ensures EventsFault(events, n, c, policy).Some?
      ==> exists i: nat :: i < n && FirstFault(events, i, c, policy, EventsFault(events, n, c, policy))
  {
    if n > 0 {
      EventsFaultMeaning(events, n - 1, c, policy);
      if EventsFault(events, n - 1, c, policy).None? && EventFault(events, n - 1, c, policy).Some? {
        assert FirstFault(events, n - 1, c, policy, EventsFault(events, n, c, policy));
      }
    }
  }

  /** What the two accumulators and the two final implementations say against the checkpoint. */
  function FinalFault(h: Hash, events: seq<Event>, c: Checkpoint, policy: Policy): Option<Rejection>
  {
    if Head(h, events) != c.head then Some(HeadMismatch)
    else if PreimageHead(h, events) != c.preimageCommitment then Some(PreimageMismatch)
    else if Epoch(events, |events|, policy.identityRegistry) != Some(c.identityCodeHash) then Some(IdentityCodeMismatch)
    else if Epoch(events, |events|,
      policy.reputationRegistry) != Some(c.reputationCodeHash) then Some(ReputationCodeMismatch)
    else None
  }

  /** The verdict: the first fault of the header, else of the events in order, else of the final state. */
  function Outcome(h: Hash, events: seq<Event>, c: Checkpoint, policy: Policy): Verified
  {
    if HeaderFault(h, |events|, c, policy).Some? then Rejected(HeaderFault(h, |events|, c, policy).value)
    else if EventsFault(events, |events|, c, policy).Some? then Rejected(EventsFault(events, |events|, c, policy).value)
    else if FinalFault(h, events, c, policy).Some? then Rejected(FinalFault(h, events, c, policy).value)
    else Accepted(Head(h, events), |events|)
  }

  /** Exactly the conforming traces are accepted. */
  lemma AcceptedExactly(h: Hash, events: seq<Event>, c: Checkpoint, policy: Policy)
    ensures Outcome(h, events, c, policy).Accepted? <==> Conforms(h, events, c, policy)
  {
    EventsFaultMeaning(events, |events|, c, policy);
  }

  ghost predicate Tracks(current: map<nat, B256>, events: seq<Event>, n: nat)
    requires n <= |events|
  {
    forall r: nat :: Epoch(events, n, r) == if r in current then Some(current[r]) else None
  }

  method CheckEvents(events: seq<Event>, c: Checkpoint, policy: Policy)
    returns (fault: Option<Rejection>, current: map<nat, B256>)
    ensures fault == EventsFault(events, |events|, c, policy)
    ensures fault.None? ==> Tracks(current, events, |events|)
  {
    current := map[];
    for index := 0 to |events|
      invariant Tracks(current, events, index)
      invariant EventsFault(events, index, c, policy).None?
    {
      var e := events[index];
      var place := PlaceFault(e, index, c, policy);
      if place.Some? {
        FaultStays(events, index + 1, |events|, c, policy);
        return place, current;
      }
      var active := if e.registry in current then Some(current[e.registry]) else None;
      var wrong := EpochFault(e, active, policy.approved);
      if wrong.Some? {
        FaultStays(events, index + 1, |events|, c, policy);
        return wrong, current;
      }
      if e.kind == IMPLEMENTATION_ACTIVATED || e.kind == UPGRADED {
        current := current[e.registry := e.codeHash];
      }
    }
    fault := None;
  }

  lemma {:induction false} FaultStays(events: seq<Event>, m: nat, n: nat, c: Checkpoint, policy: Policy)
    requires m <= n <= |events| && EventsFault(events, m, c, policy).Some?
    ensures EventsFault(events, n, c, policy) == EventsFault(events, m, c, policy)
  {
    if m < n { FaultStays(events, m, n - 1, c, policy); }
  }

  /** `verifyTrace`. */
  method VerifyTrace(h: Hash, events: seq<Event>, c: Checkpoint, policy: Policy) returns (r: Verified)
    ensures r == Outcome(h, events, c, policy)
    ensures r.Accepted? <==> Conforms(h, events, c, policy)
  {
    AcceptedExactly(h, events, c, policy);
    var header := HeaderFault(h, |events|, c, policy);
    if header.Some? { return Rejected(header.value); }
    var fault, current := CheckEvents(events, c, policy);
    if fault.Some? { return Rejected(fault.value); }
    var head, preimages := BuildHeads(h, events);
    if head != c.head { return Rejected(HeadMismatch); }
    if preimages != c.preimageCommitment { return Rejected(PreimageMismatch); }
    if policy.identityRegistry !in current || current[policy.identityRegistry] != c.identityCodeHash {
      return Rejected(IdentityCodeMismatch);
    }
    if policy.reputationRegistry !in current || current[policy.reputationRegistry] != c.reputationCodeHash {
      return Rejected(ReputationCodeMismatch);
    }
    r := Accepted(head, |events|);
  }

  // ---- the whole history is bound --------------------------------------------------------

  /** A trace accepted against the checkpoint of another is that other trace: nothing was deleted,
      inserted, reordered, repeated or changed. */
  lemma CheckpointBindsHistory(h: Hash, a: seq<Event>, b: seq<Event>, input: Checkpoint, policy: Policy)
    requires |b| < 0x1_0000_0000_0000_0000 && Conforms(h, a, Made(h, b, input), policy)
    requires CollisionFreeOn(h, Hashed(h, a) + Hashed(h, b))
    ensures a == b
  {
    HeadBinds(h, a, b);
  }

  /** The strings behind a checkpoint and the trace it was made from. */
  ghost function Committed(h: Hash, events: seq<Event>, c: Checkpoint): set<seq<Byte>>
  {
    Hashed(h, events) + {CheckpointBytes(h, c)}
  }

  /** Two traces accepted against checkpoints of one digest are one trace. */
  lemma DigestBindsHistory(h: Hash, a: seq<Event>, b: seq<Event>, c: Checkpoint, d: Checkpoint, p: Policy, q: Policy)
    requires Conforms(h, a, c, p) && Conforms(h, b, d, q) && c.digest == d.digest
    requires CollisionFreeOn(h, Committed(h, a, c) + Committed(h, b, d))
    ensures a == b && c == d
  {
    SubsetCollisionFree(h, {CheckpointBytes(h, c), CheckpointBytes(h, d)}, Committed(h, a, c) + Committed(h, b, d));
    DigestBinds(h, c, d);
    SubsetCollisionFree(h, Hashed(h, a) + Hashed(h, b), Committed(h, a, c) + Committed(h, b, d));
    HeadBinds(h, a, b);
  }

  // ---- the code every event ran under ------------------------------------------------------

  /** Event `j` is the last activation or upgrade of the registry before event `i`. */
  ghost predicate LastSwitch(events: seq<Event>, i: nat, registry: nat, j: nat) {
    && j < i <= |events| && Switches(events[j], registry)
    && forall k :: j < k < i ==> !Switches(events[k], registry)
  }

  lemma {:induction false} EpochMeaning(events: seq<Event>, n: nat, registry: nat)
    requires n <= |events|
    ensures Epoch(events, n, registry).None? <==> forall k :: 0 <= k < n ==> !Switches(events[k], registry)
    ensures forall j: nat :: LastSwitch(events, n, registry, j) ==>
      Epoch(events, n, registry) == Some(events[j].codeHash)
    ensures Epoch(events, n, registry).Some? ==> exists j: nat :: LastSwitch(events, n, registry, j)
  {
    if n > 0 {
      EpochMeaning(events, n - 1, registry);
      if Switches(events[n - 1], registry) {
        assert LastSwitch(events, n, registry, n - 1);
        forall j: nat | LastSwitch(events, n, registry, j) ensures j == n - 1 {
        }
      } else {
        forall j: nat | LastSwitch(events, n, registry, j) ensures LastSwitch(events, n - 1, registry, j) {
          assert j != n - 1;
        }
        if Epoch(events, n - 1, registry).Some? {
          var j: nat :| LastSwitch(events, n - 1, registry, j);
          assert LastSwitch(events, n, registry, j);
        }
      }
    }
  }

  predicate Ordinary(e: Event) { e.kind != IMPLEMENTATION_ACTIVATED && e.kind != UPGRADED }

  /** In an accepted trace every ordinary event carries the code hash of its registry's most recent
      activation or upgrade, and that code hash was approved. */
  lemma OrdinaryEventsRunApprovedCode(h: Hash, events: seq<Event>, c: Checkpoint, policy: Policy, i: nat)
    returns (j: nat)
    requires Conforms(h, events, c, policy) && i < |events| && Ordinary(events[i])
    ensures LastSwitch(events, i, events[i].registry, j)
    ensures events[j].codeHash == events[i].codeHash && events[j].codeHash in policy.approved
  {
    assert EventFault(events, i, c, policy).None?;
    EpochMeaning(events, i, events[i].registry);
    j :| LastSwitch(events, i, events[i].registry, j);
    assert EventFault(events, j, c, policy).None?;
  }

  /** Each registry is activated once, by its first event, and never recovered. */
  lemma FirstEventActivates(h: Hash, events: seq<Event>, c: Checkpoint, policy: Policy, i: nat)
    requires Conforms(h, events, c, policy) && i < |events|
    ensures events[i].kind == IMPLEMENTATION_ACTIVATED <==>
      forall j :: 0 <= j < i ==> events[j].registry != events[i].registry
    ensures events[i].kind != RECOVERY && events[i].sequence == i
  {
    var e := events[i];
    assert EventFault(events, i, c, policy).None?;
    EpochMeaning(events, i, e.registry);
    if e.kind == IMPLEMENTATION_ACTIVATED {
      forall j | 0 <= j < i ensures events[j].registry != e.registry {
        assert EventFault(events, j, c, policy).None?;
        EpochMeaning(events, j, e.registry);
        assert !Switches(events[j], e.registry);
      }
    } else {
      var j: nat :| LastSwitch(events, i, e.registry, j);
      assert events[j].registry == e.registry;
    }
  }
}
