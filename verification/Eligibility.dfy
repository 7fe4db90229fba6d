/** Which live valuations count, and at what discount: `eligibility` of crates/contributions-core/src/compute.rs. */
module Eligibility {
  import opened Wrappers
  import opened Totals
  import opened Ordering
  import opened FixedPoint
  import opened Reconcile

  datatype Rules = Rules(minRaterRep: int, collaboratorMult: nat, unacceptedMult: nat, carveoutBps: nat)

  /** A claim and a rater. */
  type Key = (nat, nat)

  datatype Valuation = Valuation(claim: nat, rater: nat, score: nat, discount: nat)

  datatype SkipReason = SelfValuation | BelowMinRep

  /** Every valuation is about a live claim. */
  ghost predicate Grounded(state: LiveState) { forall k :: k in state.valuations ==> k.0 in state.claims }

  /** Those who share some claim with `a`. */
  function Peers(claims: Claims, a: nat): set<nat>
  {
    set c, b | c in claims && a in claims[c].shares && b in claims[c].shares && b != a :: b
  }

  predicate Own(claim: LiveClaim, rater: nat) { rater in claim.shares || rater == claim.attester }

  /** `None` when the valuation counts. */
  function Judge(claims: Claims, rep: map<nat, int>, rules: Rules, k: Key): Option<SkipReason>
    requires k.0 in claims
  {
    if Own(claims[k.0], k.1) then Some(SelfValuation)
    else if Get(rep, k.1) < rules.minRaterRep then Some(BelowMinRep)
    else None
  }

  predicate Conflicted(claims: Claims, k: Key)
    requires k.0 in claims
  {
    exists a :: a in claims[k.0].shares && a in Peers(claims, k.1)
  }

  function Entry(state: LiveState, rules: Rules, k: Key): Valuation
    requires k.0 in state.claims && k in state.valuations
  {
    Valuation(k.0, k.1, state.valuations[k], if Conflicted(state.claims, k) then rules.collaboratorMult else S)
  }

  function AscendingPairs(s: set<Key>): seq<Key>
  {
    PairLeIsTotalOrder();
    Ascending(PairLe, s)
  }

  predicate Passes(state: LiveState, rep: map<nat, int>, rules: Rules, k: Key) {
    k in state.valuations && k.0 in state.claims && Judge(state.claims, rep, rules, k).None?
  }

  function Passing(state: LiveState, rep: map<nat, int>, rules: Rules): Key -> bool
  {
    k => Passes(state, rep, rules, k)
  }

  /** The counting valuations, in key order. */
  function EligibleKeys(state: LiveState, rep: map<nat, int>, rules: Rules): seq<Key>
  {
    Filter(Passing(state, rep, rules), AscendingPairs(state.valuations.Keys))
  }

  ghost predicate AllPass(state: LiveState, rep: map<nat, int>, rules: Rules, keys: seq<Key>) {
    forall i :: 0 <= i < |keys| ==> Passes(state, rep, rules, keys[i])
  }

  function Entries(state: LiveState, rules: Rules, keys: seq<Key>): (r: seq<Valuation>)
    requires forall i :: 0 <= i < |keys| ==> keys[i].0 in state.claims && keys[i] in state.valuations
    ensures |r| == |keys| && forall i :: 0 <= i < |r| ==> r[i] == Entry(state, rules, keys[i])
  {
    seq(|keys|, i requires 0 <= i < |keys| => Entry(state, rules, keys[i]))
  }

  lemma EligibleKeysPass(state: LiveState, rep: map<nat, int>, rules: Rules)
    ensures AllPass(state, rep, rules, EligibleKeys(state, rep, rules))
  {
    var all := AscendingPairs(state.valuations.Keys);
    forall i | 0 <= i < |EligibleKeys(state, rep, rules)|
      ensures Passes(state, rep, rules, EligibleKeys(state, rep, rules)[i])
    {
      FilterMember(Passing(state, rep, rules), all, EligibleKeys(state, rep, rules)[i]);
    }
  }

  function Eligible(state: LiveState, rep: map<nat, int>, rules: Rules): seq<Valuation>
  {
    EligibleKeysPass(state, rep, rules);
    Entries(state, rules, EligibleKeys(state, rep, rules))
  }

  function Raters(vs: seq<Valuation>): set<nat> { set v | v in vs :: v.rater }

  function Participants(state: LiveState, rep: map<nat, int>, rules: Rules): set<nat>
  {
    Raters(Eligible(state, rep, rules))
  }

  // ---- the co-claim sets -----------------------------------------------------

  function PeersIn(coClaim: map<nat, set<nat>>, a: nat): set<nat> { if a in coClaim then coClaim[a] else {} }

  method AddPeersOf(coClaim: map<nat, set<nat>>, a: nat, members: seq<nat>) returns (r: map<nat, set<nat>>)
    ensures PeersIn(r, a) == PeersIn(coClaim, a) + (Members(members) - {a})
    ensures forall x :: x != a ==> PeersIn(r, x) == PeersIn(coClaim, x)
  {
    r := coClaim;
    for i := 0 to |members|
      invariant PeersIn(r, a) == PeersIn(coClaim, a) + (Members(members[..i]) - {a})
      invariant forall x :: x != a ==> PeersIn(r, x) == PeersIn(coClaim, x)
    {
      MembersSnoc(members, i);
      if a != members[i] { r := r[a := PeersIn(r, a) + {members[i]}]; }
    }
    assert members[..|members|] == members;
  }

  /** What one claim adds to the peers of `x`. */
  function Added(done: set<nat>, all: set<nat>, x: nat): set<nat> { if x in done then all - {x} else {} }

  ghost predicate Extends(before: map<nat, set<nat>>, after: map<nat, set<nat>>, done: set<nat>, all: set<nat>) {
    forall x :: PeersIn(after, x) == PeersIn(before, x) + Added(done, all, x)
  }

  method AddClaimPeers(coClaim: map<nat, set<nat>>, members: seq<nat>) returns (r: map<nat, set<nat>>)
    ensures Extends(coClaim, r, Members(members), Members(members))
  {
    r := coClaim;
    for i := 0 to |members|
      invariant Extends(coClaim, r, Members(members[..i]), Members(members))
    {
      ghost var before := r;
      r := AddPeersOf(r, members[i], members);
      ExtendsByOne(coClaim, before, r, Members(members[..i]), Members(members), members[i]);
      MembersSnoc(members, i);
    }
    assert members[..|members|] == members;
  }

  lemma ExtendsByOne(base: map<nat, set<nat>>, before: map<nat, set<nat>>, after: map<nat, set<nat>>, done: set<nat>,
                     all: set<nat>, a: nat)
    requires Extends(base, before, done, all)
    requires PeersIn(after, a) == PeersIn(before, a) + (all - {a})
    requires forall x :: x != a ==> PeersIn(after, x) == PeersIn(before, x)
    ensures Extends(base, after, done + {a}, all)
  {
    forall x ensures PeersIn(after, x) == PeersIn(base, x) + Added(done + {a}, all, x) {
      assert PeersIn(before, x) == PeersIn(base, x) + Added(done, all, x);
    }
  }

  /** The peers of `x` in the claims listed. */
  ghost function PeersAlong(claims: Claims, uids: seq<nat>, x: nat): set<nat>
    requires forall i :: 0 <= i < |uids| ==> uids[i] in claims
  {
    if uids == [] then {} else
      PeersAlong(claims, uids[..|uids| - 1], x)
        + Added(claims[uids[|uids| - 1]].shares.Keys, claims[uids[|uids| - 1]].shares.Keys, x)
  }

  lemma {:induction false} PeersAlongMember(claims: Claims, uids: seq<nat>, x: nat, b: nat)
    requires forall i :: 0 <= i < |uids| ==> uids[i] in claims
    ensures b in PeersAlong(claims, uids, x)
      <==> b != x && exists c :: c in uids && x in claims[c].shares && b in claims[c].shares
  {
    if uids != [] {
      var n := |uids| - 1;
      PeersAlongMember(claims, uids[..n], x, b);
      assert uids == uids[..n] + [uids[n]];
    }
  }

  lemma PeersAlongAll(claims: Claims, uids: seq<nat>, x: nat)
    requires forall c :: c in uids <==> c in claims
    ensures PeersAlong(claims, uids, x) == Peers(claims, x)
  {
    forall b ensures b in PeersAlong(claims, uids, x) <==> b in Peers(claims, x) {
      PeersAlongMember(claims, uids, x, b);
    }
  }

  ghost predicate CoClaimed(claims: Claims, uids: seq<nat>, coClaim: map<nat, set<nat>>)
    requires forall i :: 0 <= i < |uids| ==> uids[i] in claims
  {
    forall x :: PeersIn(coClaim, x) == PeersAlong(claims, uids, x)
  }

  method CoClaims(claims: Claims) returns (coClaim: map<nat, set<nat>>)
    ensures forall x :: PeersIn(coClaim, x) == Peers(claims, x)
  {
    var uids := AscendingNats(claims.Keys);
    coClaim := map[];
    for i := 0 to |uids|
      invariant CoClaimed(claims, uids[..i], coClaim)
    {
      var members := AscendingNats(claims[uids[i]].shares.Keys);
      AscendingNatsMembers(claims[uids[i]].shares.Keys);
      assert Members(members) == claims[uids[i]].shares.Keys;
      ghost var before := coClaim;
      coClaim := AddClaimPeers(coClaim, members);
      CoClaimedByOne(claims, uids, i, before, coClaim);
    }
    assert uids[..|uids|] == uids;
    AscendingNatsMembers(claims.Keys);
    forall x ensures PeersIn(coClaim, x) == Peers(claims, x) { PeersAlongAll(claims, uids, x); }
  }

  lemma CoClaimedByOne(claims: Claims, uids: seq<nat>, i: nat, before: map<nat, set<nat>>, after: map<nat, set<nat>>)
    requires i < |uids| && forall j :: 0 <= j < |uids| ==> uids[j] in claims
    requires CoClaimed(claims, uids[..i], before)
    requires Extends(before, after, claims[uids[i]].shares.Keys, claims[uids[i]].shares.Keys)
    ensures CoClaimed(claims, uids[..i + 1], after)
  {
    assert uids[..i + 1][..i] == uids[..i];
  }

  // ---- the loop ----------------------------------------------------------------

  /** `peers.contains(a)` for some contributor of the claim. */
  method AnyPeer(shares: map<nat, int>, peers: set<nat>) returns (found: bool)
    ensures found == exists a :: a in shares && a in peers
  {
    found := exists a :: a in shares && a in peers;
  }

  ghost predicate Collected(state: LiveState, rep: map<nat, int>, rules: Rules, keys: seq<Key>,
                            eligible: seq<Valuation>, participants: set<nat>) {
    var passing := Filter(Passing(state, rep, rules), keys);
    && AllPass(state, rep, rules, passing)
    && eligible == Entries(state, rules, passing)
    && participants == Raters(eligible)
  }

  lemma CollectedSnoc(state: LiveState, rep: map<nat, int>, rules: Rules, keys: seq<Key>, i: nat,
                      eligible: seq<Valuation>, participants: set<nat>)
    requires i < |keys| && Collected(state, rep, rules, keys[..i], eligible, participants)
    ensures !Passes(state, rep, rules, keys[i]) ==> Collected(state, rep, rules, keys[..i + 1], eligible, participants)
    ensures Passes(state, rep, rules, keys[i])
      ==> Collected(state, rep, rules, keys[..i + 1],
                    eligible + [Entry(state, rules, keys[i])], participants + {keys[i].1})
  {
    FilterSnoc(Passing(state, rep, rules), keys, i);
    if Passes(state, rep, rules, keys[i]) { RatersSnoc(eligible, Entry(state, rules, keys[i])); }
  }

  lemma RatersSnoc(vs: seq<Valuation>, v: Valuation)
    ensures Raters(vs + [v]) == Raters(vs) + {v.rater}
  {
    assert v in vs + [v];
  }

  /** The filters on one valuation. */
  method Decide(state: LiveState, rep: map<nat, int>, rules: Rules, coClaim: map<nat, set<nat>>, k: Key)
    returns (v: Option<Valuation>)
    requires k in state.valuations && k.0 in state.claims && PeersIn(coClaim, k.1) == Peers(state.claims, k.1)
    ensures v == if Passes(state, rep, rules, k) then Some(Entry(state, rules, k)) else None
  {
    var claim := state.claims[k.0];
    if k.1 in claim.shares || k.1 == claim.attester { return None; }
    if Get(rep, k.1) < rules.minRaterRep { return None; }
    var conflicted := AnyPeer(claim.shares, PeersIn(coClaim, k.1));
    v := Some(Valuation(k.0, k.1, state.valuations[k], if conflicted then rules.collaboratorMult else S));
  }

  ghost predicate KeysOf(state: LiveState, keys: seq<Key>)
  {
    forall i :: 0 <= i < |keys| ==> keys[i] in state.valuations
  }

  /** `eligibility`: the counting valuations, and the raters who cast them. */
  method DecideEligibility(state: LiveState, rep: map<nat, int>, rules: Rules)
    returns (eligible: seq<Valuation>, participants: set<nat>)
    requires Grounded(state)
    ensures eligible == Eligible(state, rep, rules) && participants == Participants(state, rep, rules)
  {
    var coClaim := CoClaims(state.claims);
    var keys := AscendingPairs(state.valuations.Keys);
    assert KeysOf(state, keys) by {
      forall i | 0 <= i < |keys| ensures keys[i] in state.valuations { assert keys[i] in keys; }
    }
    eligible, participants := DecideAll(state, rep, rules, coClaim, keys);
  }

  method DecideAll(state: LiveState, rep: map<nat, int>, rules: Rules, coClaim: map<nat, set<nat>>, keys: seq<Key>)
    returns (eligible: seq<Valuation>, participants: set<nat>)
    requires Grounded(state) && KeysOf(state, keys) && forall x :: PeersIn(coClaim, x) == Peers(state.claims, x)
    ensures Collected(state, rep, rules, keys, eligible, participants)
  {
    eligible, participants := [], {};
    for i := 0 to |keys|
      invariant Collected(state, rep, rules, keys[..i], eligible, participants)
    {
      CollectedSnoc(state, rep, rules, keys, i, eligible, participants);
      var v := Decide(state, rep, rules, coClaim, keys[i]);
      if v.Some? {
        participants := participants + {keys[i].1};
        eligible := eligible + [v.value];
      }
    }
    assert keys[..|keys|] == keys;
  }

  // ---- what does not matter --------------------------------------------------------

  function PassingKeys(state: LiveState, rep: map<nat, int>, rules: Rules): set<Key>
  {
    set k | k in state.valuations.Keys && Passing(state, rep, rules)(k)
  }

  lemma EligibleKeysAscend(state: LiveState, rep: map<nat, int>, rules: Rules)
    ensures EligibleKeys(state, rep, rules) == AscendingPairs(PassingKeys(state, rep, rules))
  {
    PairLeIsTotalOrder();
    FilterAscending(Passing(state, rep, rules), PairLe, state.valuations.Keys, PassingKeys(state, rep, rules));
  }

  /** The states agree on everything that counts: the claims, and the valuations that pass. */
  ghost predicate AgreeOnPassing(a: LiveState, b: LiveState, rep: map<nat, int>, rules: Rules) {
    && a.claims == b.claims && a.responses == b.responses
    && (forall k :: Passes(a, rep, rules, k) <==> Passes(b, rep, rules, k))
    && forall k :: Passes(a, rep, rules, k) ==> a.valuations[k] == b.valuations[k]
  }

  lemma SamePassingKeys(a: LiveState, b: LiveState, rep: map<nat, int>, rules: Rules)
    requires AgreeOnPassing(a, b, rep, rules)
    ensures PassingKeys(a, rep, rules) == PassingKeys(b, rep, rules)
  {
    forall k ensures k in PassingKeys(a, rep, rules) <==> k in PassingKeys(b, rep, rules) {
      assert Passes(a, rep, rules, k) <==> Passes(b, rep, rules, k);
    }
  }

  lemma SameEntries(a: LiveState, b: LiveState, rep: map<nat, int>, rules: Rules, keys: seq<Key>)
    requires AgreeOnPassing(a, b, rep, rules) && AllPass(a, rep, rules, keys) && AllPass(b, rep, rules, keys)
    ensures Entries(a, rules, keys) == Entries(b, rules, keys)
  {
    forall i | 0 <= i < |keys| ensures Entry(a, rules, keys[i]) == Entry(b, rules, keys[i]) {
      assert Passes(a, rep, rules, keys[i]);
    }
  }

  lemma PassingDecides(a: LiveState, b: LiveState, rep: map<nat, int>, rules: Rules)
    requires AgreeOnPassing(a, b, rep, rules)
    ensures Eligible(a, rep, rules) == Eligible(b, rep, rules)
  {
    EligibleKeysAscend(a, rep, rules);
    EligibleKeysAscend(b, rep, rules);
    SamePassingKeys(a, b, rep, rules);
    EligibleKeysPass(a, rep, rules);
    EligibleKeysPass(b, rep, rules);
    SameEntries(a, b, rep, rules, EligibleKeys(a, rep, rules));
  }

  /** Adding or changing a valuation that is somebody's own, or whose rater has too little standing, changes nothing. */
  lemma SkippedValuationInert(state: LiveState, rep: map<nat, int>, rules: Rules, k: Key, score: nat)
    requires k.0 in state.claims && Judge(state.claims, rep, rules, k).Some?
    ensures Eligible(state.(valuations := state.valuations[k := score]), rep, rules) == Eligible(state, rep, rules)
  {
    PassingDecides(state, state.(valuations := state.valuations[k := score]), rep, rules);
  }
}
