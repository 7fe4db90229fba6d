/** Which incoming vouch earns a founder's starting balance: research/scoring-sim/founder_prior.py. */
module FounderPrior {
  import opened Wrappers
  import opened Ordering
  import opened Graph

  /** The graph with one account deleted entirely. */
  function Without(g: Adjacency, banned: Option<nat>): Adjacency
  {
    match banned
    case None => g
    case Some(b) => map u | u in g && u != b :: g[u] - {b}
  }

  function Allowed(sources: set<nat>, banned: Option<nat>): set<nat>
  {
    if banned.None? then sources else sources - {banned.value}
  }

  /** What `reach` returns. */
  ghost function Reached(g: Adjacency, sources: set<nat>, banned: Option<nat>): set<nat>
  {
    Closure(Without(g, banned), Allowed(sources, banned))
  }

  predicate Permitted(n: nat, banned: Option<nat>) { banned.None? || n != banned.value }

  lemma NextWithout(g: Adjacency, banned: Option<nat>, u: nat, v: nat)
    ensures v in Next(Without(g, banned), u) <==> v in Next(g, u) && Permitted(u, banned) && Permitted(v, banned)
  {
  }

  /** A walk that never touches the banned account. */
  ghost predicate WalkAvoiding(g: Adjacency, sources: set<nat>, banned: Option<nat>, walk: seq<nat>) {
    Walk(g, sources, walk) && forall i :: 0 <= i < |walk| ==> Permitted(walk[i], banned)
  }

  lemma WalksAgree(g: Adjacency, sources: set<nat>, banned: Option<nat>, walk: seq<nat>)
    ensures Walk(Without(g, banned), Allowed(sources, banned), walk) <==> WalkAvoiding(g, sources, banned, walk)
  {
    forall i | 0 <= i < |walk| - 1
      ensures walk[i + 1] in Next(Without(g, banned), walk[i])
        <==> walk[i + 1] in Next(g, walk[i]) && Permitted(walk[i], banned) && Permitted(walk[i + 1], banned)
    {
      NextWithout(g, banned, walk[i], walk[i + 1]);
    }
    if Walk(Without(g, banned), Allowed(sources, banned), walk) {
      forall i | 0 <= i < |walk| ensures Permitted(walk[i], banned) {
        assert i > 0 ==> walk[i - 1 + 1] in Next(Without(g, banned), walk[i - 1]);
      }
    }
  }

  /** An account is reached exactly when some walk from a source to it avoids the banned account. */
  lemma ReachedByWalk(g: Adjacency, sources: set<nat>, banned: Option<nat>, v: nat)
    ensures v in Reached(g, sources, banned)
      <==> exists walk :: WalkAvoiding(g, sources, banned, walk) && walk[|walk| - 1] == v
  {
    var h, allowed := Without(g, banned), Allowed(sources, banned);
    ClosureIsReachable(h, allowed);
    ReachableByWalk(h, allowed, v);
    if walk :| Walk(h, allowed, walk) && walk[|walk| - 1] == v {
      WalksAgree(g, sources, banned, walk);
    }
    if walk :| WalkAvoiding(g, sources, banned, walk) && walk[|walk| - 1] == v {
      WalksAgree(g, sources, banned, walk);
    }
  }

  // ---- the search loop ----------------------------------------------------

  /** What holds between two steps: accounts that are not pending have their successors seen. */
  ghost predicate Search(h: Adjacency, allowed: set<nat>, seen: set<nat>, pending: set<nat>) {
    && allowed <= seen <= Universe(h, allowed) && pending <= seen
    && (forall v :: v in seen ==> Reaches(h, allowed, v))
    && (forall u :: u in seen && u !in pending ==> Next(h, u) <= seen)
  }

  lemma Discovered(h: Adjacency, allowed: set<nat>, seen: set<nat>, pending: set<nat>, u: nat, v: nat)
    requires Search(h, allowed, seen, pending) && u in seen && v in Next(h, u)
    ensures Search(h, allowed, seen + {v}, pending + {v})
  {
    ReachesStep(h, allowed, u, v);
    assert u in h.Keys && v in Image(h, h.Keys);
  }

  method PushAllowed(sources: seq<nat>, banned: Option<nat>) returns (seen: set<nat>, queue: seq<nat>)
    ensures seen == Members(queue) == Allowed(Members(sources), banned)
  {
    seen, queue := {}, [];
    for i := 0 to |sources|
      invariant seen == Members(queue) == Allowed(Members(sources[..i]), banned)
    {
      if Permitted(sources[i], banned) {
        seen := seen + {sources[i]};
        queue := queue + [sources[i]];
      }
    }
    assert sources[..|sources|] == sources;
  }

  lemma QueueSnoc(queue: seq<nat>, v: nat)
    ensures Members(queue + [v]) == Members(queue) + {v}
  {
  }

  /** Queue one successor unless it is banned or already seen. */
  method Visit(g: Adjacency, ghost allowed: set<nat>, banned: Option<nat>, seen: set<nat>, queue: seq<nat>, u: nat,
               n: nat)
    returns (seen': set<nat>, queue': seq<nat>)
    requires Search(Without(g, banned), allowed, seen, Members(queue) + {u})
    requires Permitted(u, banned) && n in Next(g, u)
    ensures Search(Without(g, banned), allowed, seen', Members(queue') + {u})
    ensures seen' == (if Permitted(n, banned) then seen + {n} else seen) && (seen' == seen ==> queue' == queue)
  {
    seen', queue' := seen, queue;
    if Permitted(n, banned) && n !in seen {
      NextWithout(g, banned, u, n);
      Discovered(Without(g, banned), allowed, seen, Members(queue) + {u}, u, n);
      QueueSnoc(queue, n);
      assert Members(queue + [n]) + {u} == Members(queue) + {u} + {n};
      seen' := seen + {n};
      queue' := queue + [n];
    }
  }

  ghost predicate Seen(targets: seq<nat>, banned: Option<nat>, seen: set<nat>) {
    forall j :: 0 <= j < |targets| ==> Permitted(targets[j], banned) ==> targets[j] in seen
  }

  lemma SeenSnoc(targets: seq<nat>, i: nat, banned: Option<nat>, seen: set<nat>, wider: set<nat>)
    requires i < |targets| && Seen(targets[..i], banned, seen) && seen <= wider
    requires Permitted(targets[i], banned) ==> targets[i] in wider
    ensures Seen(targets[..i + 1], banned, wider)
  {
    TakeOneMore(targets, i);
    forall j | 0 <= j < i ensures Permitted(targets[j], banned) ==> targets[j] in wider {
      assert targets[..i][j] == targets[j];
    }
  }

  /** Queue the permitted successors of `u` that are new; `u` is done afterwards. */
  method Expand(g: Adjacency, ghost allowed: set<nat>, banned: Option<nat>, seen: set<nat>, queue: seq<nat>, u: nat)
    returns (seen': set<nat>, queue': seq<nat>)
    requires Search(Without(g, banned), allowed, seen, Members(queue) + {u}) && Permitted(u, banned)
    ensures Search(Without(g, banned), allowed, seen', Members(queue'))
    ensures seen <= seen' && (seen' == seen ==> queue' == queue)
  {
    var targets := AscendingNats(Next(g, u));
    seen', queue' := seen, queue;
    for i := 0 to |targets|
      invariant Search(Without(g, banned), allowed, seen', Members(queue') + {u})
      invariant seen <= seen' && (seen' == seen ==> queue' == queue)
      invariant Seen(targets[..i], banned, seen')
    {
      ghost var before := seen';
      seen', queue' := Visit(g, allowed, banned, seen', queue', u, targets[i]);
      SeenSnoc(targets, i, banned, before, seen');
    }
    AscendingNatsMembers(Next(g, u));
    AllSeen(g, banned, targets, seen', u);
    Finished(g, banned, allowed, seen', Members(queue'), u);
  }

  lemma AllSeen(g: Adjacency, banned: Option<nat>, targets: seq<nat>, seen: set<nat>, u: nat)
    requires Seen(targets[..|targets|], banned, seen) && forall n :: n in targets <==> n in Next(g, u)
    ensures forall n :: n in Next(g, u) && Permitted(n, banned) ==> n in seen
  {
    assert targets[..|targets|] == targets;
  }

  lemma Finished(g: Adjacency, banned: Option<nat>, allowed: set<nat>, seen: set<nat>, pending: set<nat>, u: nat)
    requires Search(Without(g, banned), allowed, seen, pending + {u})
    requires forall n :: n in Next(g, u) && Permitted(n, banned) ==> n in seen
    ensures Search(Without(g, banned), allowed, seen, pending)
  {
    forall n | n in Next(Without(g, banned), u) ensures n in seen { NextWithout(g, banned, u, n); }
  }

  lemma ReachedPermitted(g: Adjacency, sources: set<nat>, banned: Option<nat>, v: nat)
    requires Reaches(Without(g, banned), Allowed(sources, banned), v)
    ensures Permitted(v, banned)
  {
    var k: nat :| v in Ball(Without(g, banned), Allowed(sources, banned), k);
    BallPermitted(g, sources, banned, v, k);
  }

  lemma {:induction false} BallPermitted(g: Adjacency, sources: set<nat>, banned: Option<nat>, v: nat, k: nat)
    requires v in Ball(Without(g, banned), Allowed(sources, banned), k)
    ensures Permitted(v, banned)
    decreases k
  {
    var h, allowed := Without(g, banned), Allowed(sources, banned);
    if k > 0 {
      if v in Ball(h, allowed, k - 1) {
        BallPermitted(g, sources, banned, v, k - 1);
      } else {
        var u :| u in Ball(h, allowed, k - 1) && v in Next(h, u);
        NextWithout(g, banned, u, v);
      }
    }
  }

  lemma HeadWaits(queue: seq<nat>)
    requires queue != []
    ensures Members(queue) == Members(queue[1..]) + {queue[0]}
  {
    assert queue == [queue[0]] + queue[1..];
  }

  /** `reach`: a worklist that never enters the banned account. */
  method Reach(g: Adjacency, sources: set<nat>, banned: Option<nat>) returns (seen: set<nat>)
    ensures seen == Reached(g, sources, banned)
  {
    ghost var h, allowed := Without(g, banned), Allowed(sources, banned);
    var start := AscendingNats(sources);
    AscendingNatsMembers(sources);
    assert sources == Members(start);
    var queue: seq<nat>;
    seen, queue := PushAllowed(start, banned);
    ghost var room := Universe(h, allowed) - seen;
    forall v | v in seen ensures Reaches(h, allowed, v) { ReachesSource(h, allowed, v); }
    while queue != []
      invariant Search(h, allowed, seen, Members(queue))
      invariant room == Universe(h, allowed) - seen
      decreases room, |queue|
    {
      var u := queue[0];
      HeadWaits(queue);
      ReachedPermitted(g, sources, banned, u);
      ghost var before := seen;
      seen, queue := Expand(g, allowed, banned, seen, queue[1..], u);
      Shrinks(Universe(h, allowed), before, seen);
      room := Universe(h, allowed) - seen;
    }
    ClosureUnique(h, allowed, seen);
  }

  // ---- the three rules -----------------------------------------------------

  /** Everyone else who vouches for `target`. */
  function Incoming(g: Adjacency, target: nat): set<nat>
  {
    set a | a in g && a != target && target in g[a]
  }

  predicate R1(g: Adjacency, c: nat) { Incoming(g, c) != {} }

  ghost predicate R2(g: Adjacency, seeds: set<nat>, c: nat) {
    exists v :: v in Incoming(g, c) && v in Reached(g, seeds, None)
  }

  ghost predicate R3(g: Adjacency, seeds: set<nat>, c: nat) {
    && seeds - {c} != {}
    && exists v :: v in Incoming(g, c) && v !in seeds && v in Reached(g, seeds - {c}, Some(c))
  }

  method DecideR2(g: Adjacency, seeds: set<nat>, c: nat) returns (earns: bool)
    ensures earns == R2(g, seeds, c)
  {
    var r := Reach(g, seeds, None);
    earns := exists v :: v in Incoming(g, c) && v in r;
  }

  method DecideR3(g: Adjacency, seeds: set<nat>, c: nat) returns (earns: bool)
    ensures earns == R3(g, seeds, c)
  {
    var others := seeds - {c};
    if others == {} { return false; }
    var r := Reach(g, others, Some(c));
    earns := exists v :: v in Incoming(g, c) && v !in seeds && v in r;
  }

  lemma PlainWalk(g: Adjacency, seeds: set<nat>, walk: seq<nat>)
    ensures WalkAvoiding(g, seeds, None, walk) <==> Walk(g, seeds, walk)
  {
  }

  /** What R2 certifies: a walk from any seed that ends at somebody else who vouches. */
  lemma R2ByWalk(g: Adjacency, seeds: set<nat>, c: nat)
    ensures R2(g, seeds, c) <==> exists walk ::
      Walk(g, seeds, walk) && walk[|walk| - 1] != c && c in Next(g, walk[|walk| - 1])
  {
    if R2(g, seeds, c) {
      var v :| v in Incoming(g, c) && v in Reached(g, seeds, None);
      ReachedByWalk(g, seeds, None, v);
      var walk :| WalkAvoiding(g, seeds, None, walk) && walk[|walk| - 1] == v;
      PlainWalk(g, seeds, walk);
    }
    if walk :| Walk(g, seeds, walk) && walk[|walk| - 1] != c && c in Next(g, walk[|walk| - 1]) {
      PlainWalk(g, seeds, walk);
      ReachedByWalk(g, seeds, None, walk[|walk| - 1]);
      assert walk[|walk| - 1] in Incoming(g, c);
    }
  }

  /** What R3 certifies: a walk from another seed, never through the candidate, ending at a non-seed who vouches. */
  lemma R3ByWalk(g: Adjacency, seeds: set<nat>, c: nat)
    ensures R3(g, seeds, c) <==> exists walk ::
      WalkAvoiding(g, seeds - {c}, Some(c), walk) && walk[|walk| - 1] !in seeds && c in Next(g, walk[|walk| - 1])
  {
    if R3(g, seeds, c) {
      var v :| v in Incoming(g, c) && v !in seeds && v in Reached(g, seeds - {c}, Some(c));
      ReachedByWalk(g, seeds - {c}, Some(c), v);
    }
    if walk :|
      WalkAvoiding(g, seeds - {c}, Some(c), walk) && walk[|walk| - 1] !in seeds && c in Next(g, walk[|walk| - 1]) {
      var v := walk[|walk| - 1];
      ReachedByWalk(g, seeds - {c}, Some(c), v);
      assert Permitted(v, Some(c));
      assert v in Incoming(g, c);
    }
  }

  // ---- what nobody can do alone --------------------------------------------

  /** Only the out-edges of the candidate and of accounts out of reach (without the candidate) differ. */
  ghost predicate UnilateralChange(g: Adjacency, h: Adjacency, seeds: set<nat>, c: nat) {
    forall u :: Next(g, u) != Next(h, u) ==> u == c || u !in Reached(g, seeds - {c}, Some(c))
  }

  /** Whatever the candidate and the accounts it mints say, R3 does not hear it. */
  lemma R3IgnoresUnilateralChange(g: Adjacency, h: Adjacency, seeds: set<nat>, c: nat)
    requires UnilateralChange(g, h, seeds, c)
    ensures R3(g, seeds, c) <==> R3(h, seeds, c)
  {
    var others := seeds - {c};
    var g', h', allowed := Without(g, Some(c)), Without(h, Some(c)), Allowed(others, Some(c));
    ClosureIsReachable(g', allowed);
    forall u | Reaches(g', allowed, u) ensures Next(g', u) == Next(h', u) {
      ReachedPermitted(g, others, Some(c), u);
      forall v ensures v in Next(g', u) <==> v in Next(h', u) {
        NextWithout(g, Some(c), u, v);
        NextWithout(h, Some(c), u, v);
      }
    }
    SameReach(g', h', allowed);
    forall v | v in Reached(g, others, Some(c)) ensures v in Incoming(g, c) <==> v in Incoming(h, c) {
      ReachedPermitted(g, others, Some(c), v);
      assert c in Next(g, v) <==> c in Next(h, v);
    }
  }

  /** Accounts the graph has never mentioned and the configuration does not name. */
  ghost predicate Fresh(g: Adjacency, seeds: set<nat>, u: nat) { u !in Universe(g, seeds) }

  /** Minting accounts and having them vouch changes no R3 verdict. */
  lemma R3ResistsMinting(g: Adjacency, h: Adjacency, seeds: set<nat>, c: nat)
    requires forall u :: Next(g, u) != Next(h, u) ==> u == c || Fresh(g, seeds, u)
    ensures R3(g, seeds, c) <==> R3(h, seeds, c)
  {
    var others := seeds - {c};
    forall u | u in Reached(g, others, Some(c)) ensures !Fresh(g, seeds, u) {
      ReachedIsMentioned(g, seeds, c, u);
    }
    R3IgnoresUnilateralChange(g, h, seeds, c);
  }

  lemma ReachedIsMentioned(g: Adjacency, seeds: set<nat>, c: nat, u: nat)
    requires u in Reached(g, seeds - {c}, Some(c))
    ensures u in Universe(g, seeds)
  {
    ReachedByWalk(g, seeds - {c}, Some(c), u);
    var walk :| WalkAvoiding(g, seeds - {c}, Some(c), walk) && walk[|walk| - 1] == u;
    if |walk| > 1 {
      var n := |walk| - 2;
      assert walk[n + 1] in Next(g, walk[n]);
      assert walk[n] in g.Keys && u in Image(g, g.Keys);
    }
  }

  // ---- order of the rules ---------------------------------------------------

  lemma ReachedGrows(g: Adjacency, h: Adjacency, s: set<nat>, t: set<nat>, banned: Option<nat>, lifted: Option<nat>)
    requires s <= t && (forall u :: Next(g, u) <= Next(h, u)) && (lifted == None || lifted == banned)
    ensures Reached(g, s, banned) <= Reached(h, t, lifted)
  {
    forall v | v in Reached(g, s, banned) ensures v in Reached(h, t, lifted) {
      ReachedByWalk(g, s, banned, v);
      var walk :| WalkAvoiding(g, s, banned, walk) && walk[|walk| - 1] == v;
      assert WalkAvoiding(h, t, lifted, walk) by {
        forall i | 0 <= i < |walk| - 1 ensures walk[i + 1] in Next(h, walk[i]) {
          assert walk[i + 1] in Next(g, walk[i]);
        }
      }
      ReachedByWalk(h, t, lifted, v);
    }
  }

  lemma IncomingGrows(g: Adjacency, h: Adjacency, c: nat)
    requires forall u :: Next(g, u) <= Next(h, u)
    ensures Incoming(g, c) <= Incoming(h, c)
  {
    forall v | v in Incoming(g, c) ensures v in Incoming(h, c) {
      assert c in Next(g, v);
      assert c in Next(h, v);
    }
  }

  /** A further vouch by anyone never takes a prior away. */
  lemma R3Monotone(g: Adjacency, h: Adjacency, seeds: set<nat>, c: nat)
    requires forall u :: Next(g, u) <= Next(h, u)
    ensures R3(g, seeds, c) ==> R3(h, seeds, c)
  {
    IncomingGrows(g, h, c);
    ReachedGrows(g, h, seeds - {c}, seeds - {c}, Some(c), Some(c));
  }

  /** Each rule is stricter than the one before. */
  lemma RulesAreOrdered(g: Adjacency, seeds: set<nat>, c: nat)
    ensures R3(g, seeds, c) ==> R2(g, seeds, c)
    ensures R2(g, seeds, c) ==> R1(g, c)
  {
    ReachedGrows(g, g, seeds - {c}, seeds, Some(c), None);
  }

  /** A single seed cannot qualify its own founder, even honestly. */
  lemma SingleSeedNeverEarns(g: Adjacency, seed: nat)
    ensures !R3(g, {seed}, seed)
  {
  }

  // ---- what the weaker rules, and a second founder, give away ------------------

  function WithEdge(g: Adjacency, a: nat, b: nat): Adjacency { g[a := Next(g, a) + {b}] }

  lemma WithEdgeGrows(g: Adjacency, a: nat, b: nat)
    ensures b in Next(WithEdge(g, a, b), a)
    ensures forall u :: Next(g, u) <= Next(WithEdge(g, a, b), u)
    ensures forall u :: Next(g, u) != Next(WithEdge(g, a, b), u) ==> u == a
  {
  }

  /** The attack of the study: introduce a minted account and have it vouch back. */
  function Loop(g: Adjacency, founder: nat, minted: nat, c: nat): Adjacency
  {
    WithEdge(WithEdge(g, founder, minted), minted, c)
  }

  lemma LoopEdges(g: Adjacency, founder: nat, minted: nat, c: nat)
    requires founder != minted
    ensures minted in Next(Loop(g, founder, minted, c), founder) && c in Next(Loop(g, founder, minted, c), minted)
  {
  }

  /** Under R1 and R2 a founder certifies itself in every graph; under R3 the same edges change nothing. */
  lemma SelfCertification(g: Adjacency, seeds: set<nat>, c: nat, minted: nat)
    requires c in seeds && minted != c && Fresh(g, seeds, minted)
    ensures R1(Loop(g, c, minted, c), c) && R2(Loop(g, c, minted, c), seeds, c)
    ensures R3(Loop(g, c, minted, c), seeds, c) <==> R3(g, seeds, c)
  {
    var h := Loop(g, c, minted, c);
    LoopEdges(g, c, minted, c);
    assert minted in Incoming(h, c);
    var walk := [c, minted];
    assert WalkAvoiding(h, seeds, None, walk);
    ReachedByWalk(h, seeds, None, minted);
    WithEdgeGrows(g, c, minted);
    WithEdgeGrows(WithEdge(g, c, minted), minted, c);
    R3ResistsMinting(g, h, seeds, c);
  }

  /** One cooperating founder defeats R3, however many founders there are. */
  lemma OneCooperatingFounderSuffices(g: Adjacency, seeds: set<nat>, c: nat, other: nat, minted: nat)
    requires other in seeds && other != c && minted !in seeds && minted != c
    ensures R3(Loop(g, other, minted, c), seeds, c)
  {
    var h := Loop(g, other, minted, c);
    LoopEdges(g, other, minted, c);
    assert minted in Incoming(h, c);
    var walk := [other, minted];
    assert WalkAvoiding(h, seeds - {c}, Some(c), walk);
    ReachedByWalk(h, seeds - {c}, Some(c), minted);
  }
}
