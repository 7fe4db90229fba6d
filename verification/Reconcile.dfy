/** Contribution records reconciled into live claims, responses and valuations:
    crates/contributions-core/src/reconcile.rs. */
module Reconcile {
  import opened Wrappers
  import opened Bytes
  import opened Totals
  import opened Ordering
  import opened LastWrite
  import Records

  const KIND_CLAIM_ATTEST := 0
  const KIND_RESPONSE_ATTEST := 2
  const KIND_VALUATION_ATTEST := 4

  datatype Record = Record(kind: nat, uid: nat, attester: nat, timestamp: nat, data: seq<Byte>)

  /** The round: claims count from its first to its last second, both included. */
  datatype Round = Round(start: nat, end: nat)

  datatype LiveClaim = LiveClaim(uid: nat, attester: nat, timestamp: nat, shares: map<nat, int>, totalShares: int)

  type Claims = map<nat, LiveClaim>
  type Scores = map<(nat, nat), nat>

  datatype LiveState = LiveState(claims: Claims, responses: Scores, valuations: Scores)

  predicate IsRevoke(kind: nat) { kind % 2 == 1 }

  function Revoked(records: seq<Record>): set<nat> { set r | r in records && IsRevoke(r.kind) :: r.uid }

  /** Attestations that no revocation names, wherever it stands. */
  predicate Kept(revoked: set<nat>, r: Record) { !IsRevoke(r.kind) && r.uid !in revoked }

  function Keeps(revoked: set<nat>): Record -> bool { r => Kept(revoked, r) }

  function Time(): Record -> nat { (r: Record) => r.timestamp }

  /** Canonical order: by time, then by place in the log. */
  predicate EarlierEntry(a: (nat, Record), b: (nat, Record)) {
    a.1.timestamp < b.1.timestamp || (a.1.timestamp == b.1.timestamp && a.0 <= b.0)
  }

  // ---- what each record writes ---------------------------------------------

  /** The postings of the attribution loop. */
  function SharePostings(p: Records.ClaimPayload): (r: seq<Posting<nat>>)
  {
    seq(Least(|p.contributors|, |p.shares|), i requires 0
      <= i < Least(|p.contributors|, |p.shares|) => Posting(p.contributors[i], p.shares[i]))
  }

  function Least(a: nat, b: nat): nat { if a <= b then a else b }

  function ClaimOf(r: Record, p: Records.ClaimPayload): LiveClaim
  {
    var postings := SharePostings(p);
    LiveClaim(r.uid, r.attester, r.timestamp, Tally(postings), Posted(postings))
  }

  function ReadClaim(round: Round, r: Record): Option<(nat, LiveClaim)>
  {
    if r.kind != KIND_CLAIM_ATTEST || r.timestamp < round.start || r.timestamp > round.end then None else
      match Records.Claim(r.data)
      case None => None
      case Some(p) => Some((r.uid, ClaimOf(r, p)))
  }

  function ReadResponse(claims: Claims, r: Record): Option<((nat, nat), nat)>
  {
    if r.kind != KIND_RESPONSE_ATTEST then None else
      match Records.Score(r.data, Records.RESPONSES)
      case None => None
      case Some(p) =>
        if p.claim in claims
          && r.attester in claims[p.claim].shares then Some(((p.claim, r.attester), p.score)) else None
  }

  function ReadValuation(claims: Claims, r: Record): Option<((nat, nat), nat)>
  {
    if r.kind != KIND_VALUATION_ATTEST then None else
      match Records.Score(r.data, Records.SCORES)
      case None => None
      case Some(p) => if p.claim in claims then Some(((p.claim, r.attester), p.score)) else None
  }

  function ClaimReader(round: Round): Record -> Option<(nat, LiveClaim)> { r => ReadClaim(round, r) }
  function ResponseReader(claims: Claims): Record -> Option<((nat, nat), nat)> { r => ReadResponse(claims, r) }
  function ValuationReader(claims: Claims): Record -> Option<((nat, nat), nat)> { r => ReadValuation(claims, r) }

  // ---- the live state --------------------------------------------------------

  /** The kept records in canonical order: a stable sort by time. */
  function Ordered(records: seq<Record>): seq<Record>
  {
    SortBy(ByKey(Time()), Filter(Keeps(Revoked(records)), records))
  }

  function Replayed(ordered: seq<Record>, round: Round): LiveState
  {
    var claims := Overwrite(ClaimReader(round), ordered);
    LiveState(claims, Overwrite(ResponseReader(claims), ordered), Overwrite(ValuationReader(claims), ordered))
  }

  function Live(records: seq<Record>, round: Round): LiveState { Replayed(Ordered(records), round) }

  // ---- the loops ---------------------------------------------------------------

  function KeptEntries(records: seq<Record>): seq<(nat, Record)>
  {
    Filter((e: (nat, Record)) => Kept(Revoked(records), e.1), Positioned(records))
  }

  lemma EntriesAreOrdered(records: seq<Record>)
    ensures Seconds(SortBy(EarlierEntry, KeptEntries(records))) == Ordered(records)
  {
    var keep := (e: (nat, Record)) => Kept(Revoked(records), e.1);
    SecondsOfPositioned(records);
    FilterSeconds(Keeps(Revoked(records)), keep, Positioned(records));
    FilterInOrder(keep, Positioned(records));
    PositionIsStability(ByKey(Time()), EarlierEntry, KeptEntries(records));
  }

  method CollectShares(p: Records.ClaimPayload) returns (shares: map<nat, int>)
    ensures shares == Tally(SharePostings(p))
  {
    shares := map[];
    var n := Least(|p.contributors|, |p.shares|);
    for i := 0 to n
      invariant shares == Tally(SharePostings(p)[..i])
    {
      var before := if p.contributors[i] in shares then shares[p.contributors[i]] else 0;
      shares := shares[p.contributors[i] := before + p.shares[i]];
      TakeOneMore(SharePostings(p), i);
      TallySnoc(SharePostings(p)[..i], SharePostings(p)[i]);
    }
    assert SharePostings(p)[..n] == SharePostings(p);
  }

  lemma OverwriteSnoc<T, K, V>(read: T -> Option<(K, V)>, s: seq<T>, i: nat)
    requires i < |s|
    ensures Overwrite(read, s[..i + 1]) ==
      match read(s[i]) case None => Overwrite(read, s[..i]) case Some(entry) => Overwrite(read,
        s[..i])[entry.0 := entry.1]
  {
    assert s[..i + 1][..i] == s[..i];
  }

  method CollectClaims(ordered: seq<Record>, round: Round) returns (claims: Claims)
    ensures claims == Overwrite(ClaimReader(round), ordered)
  {
    claims := map[];
    for i := 0 to |ordered|
      invariant claims == Overwrite(ClaimReader(round), ordered[..i])
    {
      OverwriteSnoc(ClaimReader(round), ordered, i);
      var r := ordered[i];
      if r.kind == KIND_CLAIM_ATTEST && !(r.timestamp < round.start || r.timestamp > round.end) {
        var payload := Records.DecodeClaim(r.data);
        if payload.Some? {
          var shares := CollectShares(payload.value);
          var total := AddTotal(shares);
          TallyTotal(SharePostings(payload.value));
          claims := claims[r.uid := LiveClaim(r.uid, r.attester, r.timestamp, shares, total)];
        }
      }
    }
    assert ordered[..|ordered|] == ordered;
  }

  method CollectScores(ordered: seq<Record>, claims: Claims) returns (responses: Scores, valuations: Scores)
    ensures responses == Overwrite(ResponseReader(claims), ordered)
    ensures valuations == Overwrite(ValuationReader(claims), ordered)
  {
    responses, valuations := map[], map[];
    for i := 0 to |ordered|
      invariant responses == Overwrite(ResponseReader(claims), ordered[..i])
      invariant valuations == Overwrite(ValuationReader(claims), ordered[..i])
    {
      OverwriteSnoc(ResponseReader(claims), ordered, i);
      OverwriteSnoc(ValuationReader(claims), ordered, i);
      var r := ordered[i];
      if r.kind == KIND_RESPONSE_ATTEST {
        var payload := Records.Score(r.data, Records.RESPONSES);
        if payload.Some? && payload.value.claim in claims && r.attester in claims[payload.value.claim].shares {
          responses := responses[(payload.value.claim, r.attester) := payload.value.score];
        }
      } else if r.kind == KIND_VALUATION_ATTEST {
        var payload := Records.Score(r.data, Records.SCORES);
        if payload.Some? && payload.value.claim in claims {
          valuations := valuations[(payload.value.claim, r.attester) := payload.value.score];
        }
      }
    }
    assert ordered[..|ordered|] == ordered;
  }

  /** `reconcile`. */
  method Reconcile(records: seq<Record>, round: Round) returns (state: LiveState)
    ensures state == Live(records, round)
  {
    var entries := SortBy(EarlierEntry, KeptEntries(records));
    var ordered := Seconds(entries);
    EntriesAreOrdered(records);
    var claims := CollectClaims(ordered, round);
    var responses, valuations := CollectScores(ordered, claims);
    state := LiveState(claims, responses, valuations);
  }

  // ---- the simple specification: the latest record wins -------------------------

  ghost predicate KeptWriter<K, V>(records: seq<Record>, read: Record -> Option<(K, V)>, k: K, i: nat) {
    i < |records| && Kept(Revoked(records), records[i]) && Writes(read, records[i], k)
  }

  /** Record `i` is kept and writes the key; no other kept writer is later, in time or else in the log. */
  ghost predicate Wins<K, V>(records: seq<Record>, read: Record -> Option<(K, V)>, k: K, i: nat) {
    && KeptWriter(records, read, k, i)
    && forall j: nat :: KeptWriter(records, read, k, j) ==> EarlierEntry((j, records[j]), (i, records[i]))
  }

  function OnPair<K, V>(read: Record -> Option<(K, V)>): ((nat, Record)) -> Option<(K, V)>
  {
    (e: (nat, Record)) => read(e.1)
  }

  lemma {:induction false} OverwriteSeconds<K, V>(read: Record -> Option<(K, V)>, s: seq<(nat, Record)>)
    ensures Overwrite(OnPair(read), s) == Overwrite(read, Seconds(s))
  {
    if s != [] {
      var n := |s| - 1;
      OverwriteSeconds(read, s[..n]);
      SecondsAt(s, n);
      assert Seconds(s)[..n] == Seconds(s[..n]) by {
        forall i | 0 <= i < n ensures Seconds(s)[i] == Seconds(s[..n])[i] {
          SecondsAt(s, i);
          SecondsAt(s[..n], i);
        }
      }
    }
  }

  lemma EntryMember(records: seq<Record>, e: (nat, Record))
    ensures e in SortBy(EarlierEntry, KeptEntries(records))
      <==> e.0 < |records| && records[e.0] == e.1 && Kept(Revoked(records), e.1)
  {
    SortMembers(EarlierEntry, KeptEntries(records));
    FilterMember((x: (nat, Record)) => Kept(Revoked(records), x.1), Positioned(records), e);
    if e.0 < |records| && records[e.0] == e.1 { assert Positioned(records)[e.0] == e; }
  }

  lemma WriterEntry<K, V>(records: seq<Record>, read: Record -> Option<(K, V)>, k: K, i: nat)
    requires KeptWriter(records, read, k, i)
    ensures (i, records[i]) in SortBy(EarlierEntry, KeptEntries(records)) && Writes(OnPair(read), (i, records[i]), k)
  {
    EntryMember(records, (i, records[i]));
  }

  lemma OverwriteEntries<K, V>(records: seq<Record>, read: Record -> Option<(K, V)>)
    ensures Overwrite(OnPair(read), SortBy(EarlierEntry, KeptEntries(records))) == Overwrite(read, Ordered(records))
  {
    EntriesAreOrdered(records);
    OverwriteSeconds(read, SortBy(EarlierEntry, KeptEntries(records)));
  }

  lemma WinnerExists<K, V>(records: seq<Record>, read: Record -> Option<(K, V)>, k: K) returns (i: nat)
    requires k in Overwrite(read, Ordered(records))
    ensures Wins(records, read, k, i) && Overwrite(read, Ordered(records))[k] == read(records[i]).value.1
  {
    var entries := SortBy(EarlierEntry, KeptEntries(records));
    OverwriteEntries(records, read);
    SortSorted(EarlierEntry, KeptEntries(records));
    var e := OverwriteLatest(OnPair(read), EarlierEntry, entries, k);
    EntryMember(records, e);
    i := e.0;
    assert KeptWriter(records, read, k, i);
    forall j: nat | KeptWriter(records, read, k, j) ensures EarlierEntry((j, records[j]), e) {
      WriterEntry(records, read, k, j);
    }
  }

  lemma WinnerUnique<K, V>(records: seq<Record>, read: Record -> Option<(K, V)>, k: K, i: nat, j: nat)
    requires Wins(records, read, k, i) && Wins(records, read, k, j)
    ensures i == j
  {
    assert EarlierEntry((j, records[j]), (i, records[i])) && EarlierEntry((i, records[i]), (j, records[j]));
  }

  /** A key is live exactly when some kept record writes it. */
  lemma LiveKeys<K, V>(records: seq<Record>, read: Record -> Option<(K, V)>, k: K)
    ensures k in Overwrite(read, Ordered(records)) <==> exists i: nat :: KeptWriter(records, read, k, i)
  {
    if k in Overwrite(read, Ordered(records)) {
      var i := WinnerExists(records, read, k);
      assert KeptWriter(records, read, k, i);
    }
    if i: nat :| KeptWriter(records, read, k, i) {
      OverwriteEntries(records, read);
      OverwriteKeys(OnPair(read), SortBy(EarlierEntry, KeptEntries(records)), k);
      WriterEntry(records, read, k, i);
    }
  }

  /** A live entry is what the one winning record wrote. */
  lemma LatestWins<K, V>(records: seq<Record>, read: Record -> Option<(K, V)>, k: K, i: nat)
    requires Wins(records, read, k, i)
    ensures k in Overwrite(read, Ordered(records)) && Overwrite(read, Ordered(records))[k] == read(records[i]).value.1
  {
    LiveKeys(records, read, k);
    var w := WinnerExists(records, read, k);
    WinnerUnique(records, read, k, i, w);
  }

  // ---- what the order of the log can change --------------------------------------

  lemma SameLive(a: seq<Record>, b: seq<Record>, round: Round)
    requires Ordered(a) == Ordered(b)
    ensures Live(a, round) == Live(b, round)
  {
  }

  lemma SameRevoked(a: seq<Record>, b: seq<Record>)
    requires SameClasses(Time(), a, b)
    ensures Revoked(a) == Revoked(b)
  {
    forall r: Record ensures r in a <==> r in b { SameClassesMember(Time(), a, b, r); }
  }

  /** Only the relative order of records of the same second can matter. */
  lemma InterleavingIrrelevant(a: seq<Record>, b: seq<Record>, round: Round)
    requires SameClasses(Time(), a, b)
    ensures Live(a, round) == Live(b, round)
  {
    SameRevoked(a, b);
    var keeps := Keeps(Revoked(a));
    forall t: nat ensures Filter(OfClass(Time(), t), Filter(keeps, a)) == Filter(OfClass(Time(), t), Filter(keeps, b)) {
      FiltersCommute(OfClass(Time(), t), keeps, a);
      FiltersCommute(OfClass(Time(), t), keeps, b);
      assert Filter(OfClass(Time(), t), a) == Filter(OfClass(Time(), t), b);
    }
    SortForgetsInterleaving(Time(), Filter(keeps, a), Filter(keeps, b));
    SameLive(a, b, round);
  }

  ghost predicate DistinctTimes(s: seq<Record>) { forall i, j :: 0 <= i < j < |s| ==> s[i].timestamp != s[j].timestamp }

  lemma {:induction false} NoneOfTime(s: seq<Record>, t: nat)
    requires forall r :: r in s ==> r.timestamp != t
    ensures Filter(OfClass(Time(), t), s) == []
  {
    if s != [] { NoneOfTime(s[1..], t); }
  }

  lemma {:induction false} OnlyOneOfTime(s: seq<Record>, x: Record)
    requires x in s && DistinctTimes(s)
    ensures Filter(OfClass(Time(), x.timestamp), s) == [x]
  {
    FilterTail(OfClass(Time(), x.timestamp), s);
    if s[0] == x { NoneOfTime(s[1..], x.timestamp); } else { OnlyOneOfTime(s[1..], x); }
  }

  /** With distinct times the order of the log is no lever at all. */
  lemma AnyOrderOfDistinctTimes(a: seq<Record>, b: seq<Record>, round: Round)
    requires (forall r :: r in a <==> r in b) && DistinctTimes(a) && DistinctTimes(b)
    ensures Live(a, round) == Live(b, round)
  {
    forall t: nat ensures Filter(OfClass(Time(), t), a) == Filter(OfClass(Time(), t), b) {
      if x :| x in a && x.timestamp == t {
        OnlyOneOfTime(a, x);
        OnlyOneOfTime(b, x);
      } else {
        NoneOfTime(a, t);
        NoneOfTime(b, t);
      }
    }
    InterleavingIrrelevant(a, b, round);
  }

  // ---- revocation -----------------------------------------------------------------

  function OtherUid(uid: nat): Record -> bool { (r: Record) => r.uid != uid }

  lemma RevokedWith(a: seq<Record>, revoke: Record, b: seq<Record>)
    requires IsRevoke(revoke.kind)
    ensures Revoked(a + [revoke] + b) == Revoked(a + b) + {revoke.uid}
  {
    forall r: Record ensures r in a + [revoke] + b <==> r in a + b || r == revoke {
    }
    assert revoke in a + [revoke] + b;
  }

  lemma RevokedWithout(s: seq<Record>, uid: nat)
    ensures Revoked(Filter(OtherUid(uid), s)) == Revoked(s) - {uid}
  {
    FilterMembers(OtherUid(uid), s);
  }

  lemma FilterAround(keeps: Record -> bool, a: seq<Record>, revoke: Record, b: seq<Record>)
    requires !keeps(revoke)
    ensures Filter(keeps, a + [revoke] + b) == Filter(keeps, a + b)
  {
    FilterConcat(keeps, a + [revoke], b);
    FilterConcat(keeps, a, [revoke]);
    FilterConcat(keeps, a, b);
    DropsRevoke(keeps, revoke);
    assert Filter(keeps, a) + [] == Filter(keeps, a);
  }

  /** A revocation anywhere in the log is the same as striking every record of its uid. */
  lemma RevocationIsDeletion(a: seq<Record>, revoke: Record, b: seq<Record>, round: Round)
    requires IsRevoke(revoke.kind)
    ensures Live(a + [revoke] + b, round) == Live(Filter(OtherUid(revoke.uid), a + b), round)
  {
    var with, without := a + [revoke] + b, Filter(OtherUid(revoke.uid), a + b);
    RevokedWith(a, revoke, b);
    RevokedWithout(a + b, revoke.uid);
    var keeps, keeps' := Keeps(Revoked(with)), Keeps(Revoked(without));
    FilterAround(keeps, a, revoke, b);
    FilterTwice(keeps', OtherUid(revoke.uid), a + b);
    FilterAgree(keeps, Both(keeps', OtherUid(revoke.uid)), a + b);
    assert Filter(keeps, with) == Filter(keeps', without);
    SameLive(with, without, round);
  }

  lemma DropsRevoke(keeps: Record -> bool, revoke: Record)
    requires !keeps(revoke)
    ensures Filter(keeps, [revoke]) == []
  {
    FilterTail(keeps, [revoke]);
  }

  // ---- attribution ------------------------------------------------------------------

  lemma ClaimRecord(records: seq<Record>, round: Round, uid: nat) returns (r: Record, p: Records.ClaimPayload)
    requires uid in Live(records, round).claims
    ensures Records.Claim(r.data) == Some(p) && Live(records, round).claims[uid] == ClaimOf(r, p)
    ensures r.uid == uid && round.start <= r.timestamp <= round.end
  {
    var i := WinnerExists(records, ClaimReader(round), uid);
    r := records[i];
    p := Records.Claim(r.data).value;
  }

  /** The shares of a live claim are positive in sum and never leave 64 bits, not even on the way. */
  lemma LiveClaimShares(records: seq<Record>, round: Round, uid: nat)
    requires uid in Live(records, round).claims
    ensures var claim := Live(records, round).claims[uid];
      && claim.uid == uid && round.start <= claim.timestamp <= round.end
      && claim.totalShares == Total(claim.shares)
      && 0 < claim.totalShares < 0x1_0000_0000_0000_0000
      && claim.shares != map[]
      && forall a :: a in claim.shares ==> 0 <= claim.shares[a] <= claim.totalShares
  {
    var r, p := ClaimRecord(records, round, uid);
    Records.DecodedShares(r.data);
    SharesTallied(p);
  }

  lemma SharesTallied(p: Records.ClaimPayload)
    requires |p.contributors| == |p.shares| > 0
    ensures Total(Tally(SharePostings(p))) == Posted(SharePostings(p)) == Sum(p.shares)
    ensures forall a :: a in Tally(SharePostings(p)) ==> 0 <= Tally(SharePostings(p))[a] <= Sum(p.shares)
    ensures p.contributors[0] in Tally(SharePostings(p))
  {
    var postings := SharePostings(p);
    TallyTotal(postings);
    assert Amounts(postings) == p.shares;
    forall a | a in Tally(postings) ensures Tally(postings)[a] >= 0 {
      TallyAt(postings, a);
      AmountAtNonNegative(postings, a);
    }
    forall a | a in Tally(postings) ensures Tally(postings)[a] <= Sum(p.shares) {
      TotalAtLeast(Tally(postings), a);
    }
    TallyAt(postings, p.contributors[0]);
    assert postings[0].key == p.contributors[0];
  }

  /** Every step of the attribution loop stays within the final sum. */
  lemma PartialSharesBounded(p: Records.ClaimPayload, n: nat, a: nat)
    requires |p.contributors| == |p.shares| && n <= |p.shares|
    ensures 0 <= Get(Tally(SharePostings(p)[..n]), a) <= Sum(p.shares)
  {
    var postings := SharePostings(p);
    TallyAt(postings[..n], a);
    AmountAtNonNegative(postings[..n], a);
    AmountAtConcat(postings[..n], postings[n..], a);
    AmountAtNonNegative(postings[n..], a);
    assert postings[..n] + postings[n..] == postings;
    AmountWithinPosted(postings, a);
    assert Amounts(postings) == p.shares;
  }

  lemma AmountWithinPosted(postings: seq<Posting<nat>>, a: nat)
    requires forall i :: 0 <= i < |postings| ==> postings[i].amount >= 0
    ensures AmountAt(postings, a) <= Posted(postings)
  {
    SumMonotone(AmountsAt(postings, a), Amounts(postings));
  }

  // ---- consent --------------------------------------------------------------------------

  /** `consent_mult_fp`. */
  function Consent(state: LiveState, claim: LiveClaim, a: nat, scale: nat, unaccepted: nat): nat
  {
    if (claim.uid, a) in state.responses then (if state.responses[(claim.uid, a)] == 1 then scale else 0)
    else if a == claim.attester then scale
    else unaccepted
  }

  lemma LiveResponse(records: seq<Record>, round: Round, key: (nat, nat))
    requires key in Live(records, round).responses
    ensures var state := Live(records, round);
      key.0 in state.claims && key.1 in state.claims[key.0].shares && state.responses[key] in {1, 2}
  {
    var i := WinnerExists(records, ResponseReader(Live(records, round).claims), key);
  }

  lemma LiveValuation(records: seq<Record>, round: Round, key: (nat, nat))
    requires key in Live(records, round).valuations
    ensures var state := Live(records, round); key.0 in state.claims && state.valuations[key] <= 100
  {
    var i := WinnerExists(records, ValuationReader(Live(records, round).claims), key);
  }

  /** What a contributor says last decides: accepting gives the whole share, refusing gives nothing
      even of an own claim; silence accepts only an own claim. */
  lemma ConsentFollowsLastResponse(records: seq<Record>, round: Round, uid: nat, a: nat, i: nat, scale: nat,
                                   unaccepted: nat)
    requires var claims := Live(records, round).claims;
      uid in claims && Wins(records, ResponseReader(claims), (uid, a), i)
    ensures var state := Live(records, round);
      Consent(state, state.claims[uid], a, scale, unaccepted)
        == if Records.Score(records[i].data, Records.RESPONSES).value.score == 1 then scale else 0
  {
    var state := Live(records, round);
    LatestWins(records, ResponseReader(state.claims), (uid, a), i);
    LiveClaimShares(records, round, uid);
  }
}
