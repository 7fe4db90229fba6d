/** The search of the production kernel, which carries each account's decay instead of its distance:
    `bfs_decays` of crates/pagerank-core/src/pagerank.rs. */
module DecaySearch {
  import opened Wrappers
  import opened Ordering
  import opened FixedPoint
  import opened Graph
  import opened PageRank
  import Bfs

  /** The edges that carry influence. */
  function CarryingRow(a: nat, row: map<nat, int>): map<nat, int>
  {
    map t | t in row && Carries(a, t, row[t]) :: row[t]
  }

  function Carrying(outgoing: Outgoing): Outgoing { map a | a in outgoing :: CarryingRow(a, outgoing[a]) }

  function CarryingLinks(outgoing: Outgoing): Adjacency { map a | a in outgoing :: CarryingRow(a, outgoing[a]).Keys }

  /** The decay of every recorded account, from its distance. */
  function Decayed(base: int, dist: map<nat, nat>): (r: map<nat, int>)
    ensures r.Keys == dist.Keys
  {
    map v | v in dist :: DecayPow(base, dist[v])
  }

  lemma DecayedOneMore(base: int, dist: map<nat, nat>, v: nat, d: nat)
    ensures Decayed(base, dist[v := d]) == Decayed(base, dist)[v := DecayPow(base, d)]
  {
  }

  ghost predicate Searching(g: Adjacency, seeds: set<nat>, dist: map<nat, nat>, queue: seq<nat>, u: nat, d: nat) {
    u in dist && dist[u] == d && Bfs.Exact(g, seeds, dist) && Bfs.Search(g, seeds, dist, queue, {u}, d)
  }

  lemma SearchingAt(g: Adjacency, seeds: set<nat>, dist: map<nat, nat>, queue: seq<nat>, u: nat, d: nat, level: nat)
    requires u in dist && dist[u] == d == level && Bfs.Exact(g, seeds, dist)
    requires Bfs.Search(g, seeds, dist, queue, {u}, level)
    ensures Searching(g, seeds, dist, queue, u, d)
  {
  }

  lemma Discovered(g: Adjacency, seeds: set<nat>, dist: map<nat, nat>, next: map<nat, nat>, queue: seq<nat>, u: nat,
                   d: nat, v: nat)
    requires Searching(g, seeds, dist, queue, u, d) && v in Next(g, u) && v !in dist && next == dist[v := dist[u] + 1]
    ensures Searching(g, seeds, next, queue + [v], u, d)
  {
    Bfs.DiscoverExact(g, seeds, dist, u, v);
    Bfs.Discover(g, seeds, dist, queue, u, v);
    SearchingAt(g, seeds, next, queue + [v], u, d, dist[u]);
  }

  lemma StillGrown(d0: map<nat, nat>, q0: seq<nat>, dist: map<nat, nat>, queue: seq<nat>, v: nat, x: nat)
    requires Bfs.Grown(d0, q0, dist, queue) && v !in dist
    ensures Bfs.Grown(d0, q0, dist[v := x], queue + [v])
  {
    Bfs.GrownByOne(d0, q0, dist, queue, v, x);
  }

  lemma ChildDecay(base: int, dist: map<nat, nat>, u: nat)
    requires u in dist
    ensures FpMul(Decayed(base, dist)[u], base) == DecayPow(base, dist[u] + 1)
  {
  }

  /** What holds while account `u`, at distance `d`, is expanded. */
  ghost predicate Progress(g: Adjacency, seeds: set<nat>, base: int, decays: map<nat, int>, dist: map<nat, nat>,
                           queue: seq<nat>, u: nat, d: nat) {
    Searching(g, seeds, dist, queue, u, d) && decays == Decayed(base, dist)
  }

  lemma SameUpdate(dist: map<nat, nat>, next: map<nat, nat>, u: nat, d: nat, v: nat)
    requires u in dist && dist[u] == d && next == dist[v := d + 1]
    ensures next == dist[v := dist[u] + 1]
  {
  }

  lemma DiscoverProgress(g: Adjacency, seeds: set<nat>, base: int, decays: map<nat, int>, dist: map<nat, nat>,
                         next: map<nat, nat>, queue: seq<nat>, u: nat, d: nat, v: nat)
    requires Progress(g, seeds, base, decays, dist, queue, u, d) && v in Next(g, u) && v !in dist
    requires next == dist[v := d + 1]
    ensures FpMul(decays[u], base) == DecayPow(base, d + 1)
    ensures Progress(g, seeds, base, decays[v := DecayPow(base, d + 1)], next, queue + [v], u, d)
  {
    ChildDecay(base, dist, u);
    SameUpdate(dist, next, u, d, v);
    Discovered(g, seeds, dist, next, queue, u, d, v);
    DecayedOneMore(base, dist, v, d + 1);
  }

  /** One edge: a new neighbour is recorded with the child decay and queued. */
  method VisitEdge(ghost g: Adjacency, ghost seeds: set<nat>, base: int, decays: map<nat, int>,
                   ghost dist: map<nat, nat>, queue: seq<nat>, u: nat, ghost d: nat, neighbor: nat,
                   childDecay: Option<int>)
    returns (decays': map<nat, int>, ghost dist': map<nat, nat>, queue': seq<nat>, childDecay': Option<int>)
    requires Progress(g, seeds, base, decays, dist, queue, u, d) && neighbor in Next(g, u)
    requires childDecay.Some? ==> childDecay.value == DecayPow(base, d + 1)
    ensures Progress(g, seeds, base, decays', dist', queue', u, d)
    ensures if neighbor in dist then dist' == dist && queue' == queue
            else dist' == dist[neighbor := d + 1] && queue' == queue + [neighbor]
    ensures childDecay'.Some? ==> childDecay'.value == DecayPow(base, d + 1)
  {
    decays', dist', queue', childDecay' := decays, dist, queue, childDecay;
    if neighbor !in decays {
      dist' := dist[neighbor := d + 1];
      DiscoverProgress(g, seeds, base, decays, dist, dist', queue, u, d, neighbor);
      if childDecay.None? { childDecay' := Some(FpMul(decays[u], base)); }
      decays' := decays[neighbor := childDecay'.value];
      queue' := queue + [neighbor];
    }
  }

  /** The carrying targets seen so far are recorded. */
  ghost predicate Recorded(u: nat, row: map<nat, int>, targets: seq<nat>, n: nat, seen: set<nat>) {
    && n <= |targets|
    && forall j :: 0 <= j < n && targets[j] in row && Carries(u, targets[j], row[targets[j]]) ==> targets[j] in seen
  }

  lemma RecordedSnoc(u: nat, row: map<nat, int>, targets: seq<nat>, n: nat, seen: set<nat>, wider: set<nat>)
    requires Recorded(u, row, targets, n, seen) && n < |targets| && seen <= wider
    requires targets[n] in row && Carries(u, targets[n], row[targets[n]]) ==> targets[n] in wider
    ensures Recorded(u, row, targets, n + 1, wider)
  {
  }

  /** The loop over the edges of one account: the decay of its children is computed at most once. */
  method VisitRow(outgoing: Outgoing, ghost seeds: set<nat>, base: int, decays: map<nat, int>,
                  ghost dist: map<nat, nat>, queue: seq<nat>, u: nat, targets: seq<nat>)
    returns (decays': map<nat, int>, ghost dist': map<nat, nat>, queue': seq<nat>)
    requires u in dist && Searching(CarryingLinks(outgoing), seeds, dist, queue, u, dist[u])
      && decays == Decayed(base, dist)
    requires u in outgoing && forall i :: 0 <= i < |targets| ==> targets[i] in outgoing[u]
    ensures Searching(CarryingLinks(outgoing), seeds, dist', queue', u, dist[u]) && decays' == Decayed(base, dist')
    ensures Bfs.Grown(dist, queue, dist', queue') && Recorded(u, outgoing[u], targets, |targets|, dist'.Keys)
  {
    decays', dist', queue' := decays, dist, queue;
    ghost var g := CarryingLinks(outgoing);
    var childDecay: Option<int> := None;
    for i := 0 to |targets|
      invariant Progress(g, seeds, base, decays', dist', queue', u, dist[u])
      invariant Bfs.Grown(dist, queue, dist', queue') && Recorded(u, outgoing[u], targets, i, dist'.Keys)
      invariant childDecay.Some? ==> childDecay.value == DecayPow(base, dist[u] + 1)
    {
      ghost var seen := dist'.Keys;
      if Carries(u, targets[i], outgoing[u][targets[i]]) {
        if targets[i] !in dist' { StillGrown(dist, queue, dist', queue', targets[i], dist[u] + 1); }
        decays', dist', queue', childDecay :=
          VisitEdge(g, seeds, base, decays', dist', queue', u, dist[u], targets[i], childDecay);
      }
      RecordedSnoc(u, outgoing[u], targets, i, seen, dist'.Keys);
    }
  }

  /** All the edges of one account, after which it is done. */
  method ExpandDecays(outgoing: Outgoing, ghost seeds: set<nat>, base: int, decays: map<nat, int>,
                      ghost dist: map<nat, nat>, queue: seq<nat>, u: nat)
    returns (decays': map<nat, int>, ghost dist': map<nat, nat>, queue': seq<nat>)
    requires u in dist && Searching(CarryingLinks(outgoing), seeds, dist, queue, u, dist[u])
      && decays == Decayed(base, dist)
    ensures Bfs.Exact(CarryingLinks(outgoing), seeds, dist') && decays' == Decayed(base, dist')
    ensures Bfs.Search(CarryingLinks(outgoing), seeds, dist', queue', {}, dist[u])
      && Bfs.Grown(dist, queue, dist', queue')
  {
    ghost var g := CarryingLinks(outgoing);
    decays', dist', queue' := decays, dist, queue;
    if u in outgoing {
      var targets := AscendingNats(outgoing[u].Keys);
      decays', dist', queue' := VisitRow(outgoing, seeds, base, decays, dist, queue, u, targets);
      AscendingNatsMembers(outgoing[u].Keys);
      AllRecorded(outgoing, u, targets, dist');
    }
    Bfs.Release(g, seeds, dist', queue', u, dist[u]);
  }

  lemma AllRecorded(outgoing: Outgoing, u: nat, targets: seq<nat>, dist: map<nat, nat>)
    requires u in outgoing && (forall t :: t in targets <==> t in outgoing[u]) &&
      Recorded(u, outgoing[u], targets, |targets|, dist.Keys)
    ensures Next(CarryingLinks(outgoing), u) <= dist.Keys
  {
    forall t | t in Next(CarryingLinks(outgoing), u) ensures t in dist {
      assert t in targets;
      var j :| 0 <= j < |targets| && targets[j] == t;
    }
  }

  function Constant(keys: set<nat>, x: nat): (r: map<nat, nat>)
    ensures r.Keys == keys
  {
    map v | v in keys :: x
  }

  /** What holds between two accounts. */
  ghost predicate Between(g: Adjacency, seeds: set<nat>, base: int, decays: map<nat, int>, dist: map<nat, nat>,
                          queue: seq<nat>, d: nat) {
    Bfs.Exact(g, seeds, dist) && Bfs.Search(g, seeds, dist, queue, {}, d) && decays == Decayed(base, dist)
  }

  lemma Begin(g: Adjacency, seeds: set<nat>, base: int, decays: map<nat, int>, dist: map<nat, nat>, queue: seq<nat>)
    requires (forall v :: v in queue <==> v in seeds) && dist == Constant(seeds, 0) && decays == Constant(seeds, S)
    ensures Between(g, seeds, base, decays, dist, queue, 0)
  {
    assert dist == map v | v in seeds :: 0;
    Bfs.Begin(g, seeds, queue);
    forall v | v in seeds ensures Decayed(base, dist)[v] == S {}
  }

  lemma Done(g: Adjacency, seeds: set<nat>, base: int, decays: map<nat, int>, dist: map<nat, nat>, d: nat)
    requires Between(g, seeds, base, decays, dist, [], d)
    ensures decays == Decayed(base, Bfs.Distances(g, seeds))
  {
    assert Members<nat>([]) + {} == {};
    Bfs.EmptyQueueDone(g, seeds, dist);
  }

  /** Take the head of the queue and expand it. */
  method Advance(outgoing: Outgoing, ghost seeds: set<nat>, base: int, decays: map<nat, int>, ghost dist: map<nat, nat>,
                 queue: seq<nat>, ghost d: nat)
    returns (decays': map<nat, int>, ghost dist': map<nat, nat>, queue': seq<nat>, ghost d': nat)
    requires queue != [] && Between(CarryingLinks(outgoing), seeds, base, decays, dist, queue, d)
    ensures Between(CarryingLinks(outgoing), seeds, base, decays', dist', queue', d')
    ensures dist.Keys <= dist'.Keys <= Universe(CarryingLinks(outgoing), seeds)
    ensures dist'.Keys == dist.Keys ==> queue' == queue[1..]
  {
    Bfs.Take(CarryingLinks(outgoing), seeds, dist, queue, d);
    d' := dist[queue[0]];
    decays', dist', queue' := ExpandDecays(outgoing, seeds, base, decays, dist, queue[1..], queue[0]);
  }

  /** `bfs_decays`: carrying the decay along gives the power of the least distance. */
  method BfsDecays(outgoing: Outgoing, seeds: set<nat>, base: int) returns (decays: map<nat, int>)
    ensures decays == Decayed(base, Bfs.Distances(CarryingLinks(outgoing), seeds))
  {
    ghost var g := CarryingLinks(outgoing);
    ghost var dist: map<nat, nat> := Constant(seeds, 0);
    decays := Constant(seeds, S);
    var queue := AscendingNats(seeds);
    ghost var d, room := 0, Universe(g, seeds) - dist.Keys;
    AscendingNatsMembers(seeds);
    Begin(g, seeds, base, decays, dist, queue);
    while queue != []
      invariant Between(g, seeds, base, decays, dist, queue, d)
      invariant room == Universe(g, seeds) - dist.Keys
      decreases room, |queue|
    {
      ghost var before := dist.Keys;
      decays, dist, queue, d := Advance(outgoing, seeds, base, decays, dist, queue, d);
      Shrinks(Universe(g, seeds), before, dist.Keys);
      room := Universe(g, seeds) - dist.Keys;
    }
    Done(g, seeds, base, decays, dist, d);
  }
}
