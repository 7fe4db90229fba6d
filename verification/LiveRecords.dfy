/** Which records are live and what a live record says, in terms of the log alone:
    crates/contributions-core/src/reconcile.rs:46-135. */
module LiveRecords {
  import opened Wrappers
  import opened Totals
  import opened Ordering
  import opened LastWrite
  import opened Reconcile
  import Records

  /** No revocation, wherever it stands, names the record's uid. */
  ghost predicate Standing(records: seq<Record>, i: nat) {
    && i < |records| && records[i].kind % 2 == 0
    && forall j :: 0 <= j < |records| && records[j].kind % 2 == 1 ==> records[j].uid != records[i].uid
  }

  lemma StandingIsKept(records: seq<Record>, i: nat)
    requires i < |records|
    ensures Standing(records, i) <==> Kept(Revoked(records), records[i])
  {
    if !Standing(records, i) && records[i].kind % 2 == 0 {
      var j :| 0 <= j < |records| && records[j].kind % 2 == 1 && records[j].uid == records[i].uid;
      assert records[j] in records;
    }
  }

  // ---- claims -----------------------------------------------------------------

  /** Record `i` stands and attests, inside the round, a claim that decodes. */
  ghost predicate Claims(records: seq<Record>, round: Round, uid: nat, i: nat) {
    && Standing(records, i) && records[i].kind == 0 && records[i].uid == uid
    && round.start <= records[i].timestamp <= round.end && Records.Claim(records[i].data).Some?
  }

  lemma ClaimsIsWriter(records: seq<Record>, round: Round, uid: nat, i: nat)
    ensures Claims(records, round, uid, i) <==> KeptWriter(records, ClaimReader(round), uid, i)
  {
    if i < |records| { StandingIsKept(records, i); }
  }

  /** What a list of contributors with their shares gives to one account. */
  function Listed(contributors: seq<nat>, shares: seq<nat>, a: nat): nat
    requires |contributors| == |shares|
  {
    if shares == [] then 0
    else (if contributors[0] == a then shares[0] else 0) + Listed(contributors[1..], shares[1..], a)
  }

  lemma {:induction false} ListedAt(contributors: seq<nat>, shares: seq<nat>, a: nat, postings: seq<Posting<nat>>)
    requires |contributors| == |shares| == |postings|
    requires forall i :: 0 <= i < |shares| ==> postings[i] == Posting(contributors[i], shares[i])
    ensures AmountAt(postings, a) == Listed(contributors, shares, a)
  {
    if shares == [] {
      assert AmountsAt(postings, a) == [];
    } else {
      ListedAt(contributors[1..], shares[1..], a, postings[1..]);
      assert postings == [postings[0]] + postings[1..];
      AmountAtConcat([postings[0]], postings[1..], a);
      assert [postings[0]] == [] + [postings[0]];
      AmountAtSnoc([], postings[0], a);
      assert AmountsAt<nat>([], a) == [];
    }
  }

  /** A claim's shares: each listed account holds exactly what the payload lists for it. */
  lemma SharesAsListed(p: Records.ClaimPayload, a: nat)
    requires |p.contributors| == |p.shares|
    ensures a in Tally(SharePostings(p)) <==> a in p.contributors
    ensures Get(Tally(SharePostings(p)), a) == Listed(p.contributors, p.shares, a)
  {
    var postings := SharePostings(p);
    TallyAt(postings, a);
    ListedAt(p.contributors, p.shares, a, postings);
    if a in p.contributors {
      var i :| 0 <= i < |p.contributors| && p.contributors[i] == a;
      assert postings[i].key == a;
    }
  }

  /** A uid is live exactly when a standing record claims it inside the round. */
  lemma LiveClaimExactly(records: seq<Record>, round: Round, uid: nat)
    ensures uid in Live(records, round).claims <==> exists i: nat :: Claims(records, round, uid, i)
  {
    LiveKeys(records, ClaimReader(round), uid);
    if i: nat :| Claims(records, round, uid, i) { ClaimsIsWriter(records, round, uid, i); }
    if i: nat :| KeptWriter(records, ClaimReader(round), uid, i) { ClaimsIsWriter(records, round, uid, i); }
  }

  /** Record `i` is the latest, by time and then by place, that claims the uid. */
  ghost predicate LastClaim(records: seq<Record>, round: Round, uid: nat, i: nat) {
    && Claims(records, round, uid, i)
    && forall j: nat :: Claims(records, round, uid, j) ==> NotLater(records, j, i)
  }

  ghost predicate NotLater(records: seq<Record>, j: nat, i: nat)
    requires i < |records| && j < |records|
  {
    records[j].timestamp < records[i].timestamp || (records[j].timestamp == records[i].timestamp && j <= i)
  }

  lemma LastClaimWins(records: seq<Record>, round: Round, uid: nat, i: nat)
    ensures LastClaim(records, round, uid, i) <==> Wins(records, ClaimReader(round), uid, i)
  {
    forall j: nat ensures Claims(records, round, uid, j) <==> KeptWriter(records, ClaimReader(round), uid, j) {
      ClaimsIsWriter(records, round, uid, j);
    }
    if LastClaim(records, round, uid, i) {
      forall j: nat | KeptWriter(records, ClaimReader(round), uid, j)
        ensures EarlierEntry((j, records[j]), (i, records[i]))
      {
        assert Claims(records, round, uid, j);
      }
    }
    if Wins(records, ClaimReader(round), uid, i) {
      forall j: nat | Claims(records, round, uid, j) ensures NotLater(records, j, i) {
        assert KeptWriter(records, ClaimReader(round), uid, j);
      }
    }
  }

  /** A live claim is its last record, word for word: its attester, its time, and its shares as listed. */
  lemma LiveClaimAsWritten(records: seq<Record>, round: Round, uid: nat, i: nat)
    requires LastClaim(records, round, uid, i)
    ensures uid in Live(records, round).claims
    ensures var claim, p := Live(records, round).claims[uid], Records.Claim(records[i].data).value;
      && claim.uid == uid && claim.attester == records[i].attester && claim.timestamp == records[i].timestamp
      && |p.contributors| == |p.shares|
      && (forall a :: a in claim.shares <==> a in p.contributors)
      && (forall a :: Get(claim.shares, a) == Listed(p.contributors, p.shares, a))
  {
    LastClaimWins(records, round, uid, i);
    LatestWins(records, ClaimReader(round), uid, i);
    Records.DecodedShares(records[i].data);
    var p := Records.Claim(records[i].data).value;
    forall a ensures a in Tally(SharePostings(p)) <==> a in p.contributors { SharesAsListed(p, a); }
    forall a ensures Get(Tally(SharePostings(p)), a) == Listed(p.contributors, p.shares, a) { SharesAsListed(p, a); }
  }

  // ---- responses and valuations ---------------------------------------------------

  /** Record `i` stands and answers the claim in the name of one of its contributors. */
  ghost predicate Responds(records: seq<Record>, claims: Claims, uid: nat, a: nat, i: nat) {
    && Standing(records, i) && records[i].kind == 2 && records[i].attester == a
    && uid in claims && a in claims[uid].shares
    && Records.Score(records[i].data, Records.RESPONSES).Some?
    && Records.Score(records[i].data, Records.RESPONSES).value.claim == uid
  }

  /** Record `i` stands and values the claim in the name of `a`. */
  ghost predicate Values(records: seq<Record>, claims: Claims, uid: nat, a: nat, i: nat) {
    && Standing(records, i) && records[i].kind == 4 && records[i].attester == a && uid in claims
    && Records.Score(records[i].data, Records.SCORES).Some?
    && Records.Score(records[i].data, Records.SCORES).value.claim == uid
  }

  lemma RespondsIsWriter(records: seq<Record>, claims: Claims, uid: nat, a: nat, i: nat)
    ensures Responds(records, claims, uid, a, i) <==> KeptWriter(records, ResponseReader(claims), (uid, a), i)
  {
    if i < |records| { StandingIsKept(records, i); }
  }

  lemma ValuesIsWriter(records: seq<Record>, claims: Claims, uid: nat, a: nat, i: nat)
    ensures Values(records, claims, uid, a, i) <==> KeptWriter(records, ValuationReader(claims), (uid, a), i)
  {
    if i < |records| { StandingIsKept(records, i); }
  }

  lemma LiveResponseExactly(records: seq<Record>, round: Round, uid: nat, a: nat)
    ensures var state := Live(records, round);
      (uid, a) in state.responses <==> exists i: nat :: Responds(records, state.claims, uid, a, i)
  {
    var claims := Live(records, round).claims;
    LiveKeys(records, ResponseReader(claims), (uid, a));
    if i: nat :| Responds(records, claims, uid, a, i) { RespondsIsWriter(records, claims, uid, a, i); }
    if i: nat :| KeptWriter(records, ResponseReader(claims), (uid, a), i) {
      RespondsIsWriter(records, claims, uid, a, i);
    }
  }

  lemma LiveValuationExactly(records: seq<Record>, round: Round, uid: nat, a: nat)
    ensures var state := Live(records, round);
      (uid, a) in state.valuations <==> exists i: nat :: Values(records, state.claims, uid, a, i)
  {
    var claims := Live(records, round).claims;
    LiveKeys(records, ValuationReader(claims), (uid, a));
    if i: nat :| Values(records, claims, uid, a, i) { ValuesIsWriter(records, claims, uid, a, i); }
    if i: nat :| KeptWriter(records, ValuationReader(claims), (uid, a), i) {
      ValuesIsWriter(records, claims, uid, a, i);
    }
  }

  /** The live valuation of a claim by a rater is the score of the last record that values it. */
  lemma LiveValuationAsWritten(records: seq<Record>, round: Round, uid: nat, a: nat, i: nat)
    requires var claims := Live(records, round).claims;
      && Values(records, claims, uid, a, i)
      && forall j: nat :: Values(records, claims, uid, a, j) ==> NotLater(records, j, i)
    ensures (uid, a) in Live(records, round).valuations
    ensures Live(records, round).valuations[(uid, a)] == Records.Score(records[i].data, Records.SCORES).value.score
  {
    var claims := Live(records, round).claims;
    ValuesIsWriter(records, claims, uid, a, i);
    forall j: nat | KeptWriter(records, ValuationReader(claims), (uid, a), j)
      ensures EarlierEntry((j, records[j]), (i, records[i]))
    {
      ValuesIsWriter(records, claims, uid, a, j);
    }
    LatestWins(records, ValuationReader(claims), (uid, a), i);
  }

  // ---- consent --------------------------------------------------------------------

  /** Whoever never answered has accepted an own claim and no other. */
  lemma SilenceAcceptsOwnClaim(records: seq<Record>, round: Round, uid: nat, a: nat, i: nat, scale: nat,
                                unaccepted: nat)
    requires LastClaim(records, round, uid, i)
    requires forall j: nat :: !Responds(records, Live(records, round).claims, uid, a, j)
    ensures uid in Live(records, round).claims
    ensures Consent(Live(records, round), Live(records, round).claims[uid], a, scale, unaccepted)
      == if a == records[i].attester then scale else unaccepted
  {
    LiveClaimAsWritten(records, round, uid, i);
    LiveResponseExactly(records, round, uid, a);
  }

  /** Whoever answered is taken at the last answer: 1 accepts, anything else refuses, even an own claim. */
  lemma LastAnswerDecides(records: seq<Record>, round: Round, uid: nat, a: nat, i: nat, scale: nat, unaccepted: nat)
    requires var claims := Live(records, round).claims;
      && Responds(records, claims, uid, a, i)
      && forall j: nat :: Responds(records, claims, uid, a, j) ==> NotLater(records, j, i)
    ensures uid in Live(records, round).claims
    ensures Consent(Live(records, round), Live(records, round).claims[uid], a, scale, unaccepted)
      == if Records.Score(records[i].data, Records.RESPONSES).value.score == 1 then scale else 0
  {
    var claims := Live(records, round).claims;
    RespondsIsWriter(records, claims, uid, a, i);
    forall j: nat | KeptWriter(records, ResponseReader(claims), (uid, a), j)
      ensures EarlierEntry((j, records[j]), (i, records[i]))
    {
      RespondsIsWriter(records, claims, uid, a, j);
    }
    ConsentFollowsLastResponse(records, round, uid, a, i, scale, unaccepted);
  }
}
