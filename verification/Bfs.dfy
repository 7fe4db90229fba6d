/** Breadth-first distances from the seeds: research/scoring-sim/tg.py. */
module Bfs {
  import opened Ordering
  import opened Graph

  /** Shortest hop counts of everything the seeds reach. */
  ghost function Distances(g: Adjacency, seeds: set<nat>): map<nat, nat>
  {
    map v | v in Closure(g, seeds) :: (ClosureIsReachable(g, seeds); Hops(g, seeds, v))
  }

  // ---- the queue invariant -----------------------------------------------

  /** A recorded distance is the hop count. */
  ghost predicate Exact(g: Adjacency, seeds: set<nat>, dist: map<nat, nat>) {
    forall v :: v in dist ==> v in Ball(g, seeds, dist[v]) && (dist[v] > 0 ==> v !in Ball(g, seeds, dist[v] - 1))
  }

  /** The queue holds recorded nodes by distance, within one level of `d`. */
  ghost predicate Layered(dist: map<nat, nat>, queue: seq<nat>, d: nat) {
    && (forall i :: 0 <= i < |queue| ==> queue[i] in dist && d <= dist[queue[i]] <= d + 1)
    && (forall i, j :: 0 <= i < j < |queue| ==> dist[queue[i]] <= dist[queue[j]])
  }

  /** Nodes that left the queue have their successors recorded, at most one level on. */
  ghost predicate Expanded(g: Adjacency, dist: map<nat, nat>, pending: set<nat>) {
    forall u, v :: u in dist && u !in pending && v in Next(g, u) ==> v in dist
  }

  /** Everything below level `d`, and level `d` itself, is recorded; nodes below it left the queue. */
  ghost predicate Reached(g: Adjacency, seeds: set<nat>, dist: map<nat, nat>, pending: set<nat>, d: nat) {
    && Ball(g, seeds, d) <= dist.Keys
    && forall v :: v in pending ==> v in dist && dist[v] >= d
  }

  lemma ExactAtMost(g: Adjacency, seeds: set<nat>, dist: map<nat, nat>, v: nat, d: nat)
    requires Exact(g, seeds, dist) && v in dist && v in Ball(g, seeds, d)
    ensures dist[v] <= d
  {
    if dist[v] > d { BallMonotone(g, seeds, d, dist[v] - 1); }
  }

  /** When level `d` has left the queue, level `d + 1` is recorded. */
  lemma NextLevel(g: Adjacency, seeds: set<nat>, dist: map<nat, nat>, pending: set<nat>, d: nat)
    requires Exact(g, seeds, dist) && Expanded(g, dist, pending) && Ball(g, seeds, d) <= dist.Keys
    requires forall v :: v in pending ==> v in dist && dist[v] > d
    ensures Ball(g, seeds, d + 1) <= dist.Keys
  {
    forall v | v in Image(g, Ball(g, seeds, d)) ensures v in dist {
      var u :| u in Ball(g, seeds, d) && v in Next(g, u);
      ExactAtMost(g, seeds, dist, u, d);
    }
  }

  lemma EmptyQueueDone(g: Adjacency, seeds: set<nat>, dist: map<nat, nat>)
    requires Exact(g, seeds, dist) && Expanded(g, dist, {}) && seeds <= dist.Keys
    ensures dist == Distances(g, seeds)
  {
    forall v | v in dist ensures Reaches(g, seeds, v) { assert v in Ball(g, seeds, dist[v]); }
    ClosureUnique(g, seeds, dist.Keys);
    ClosureIsReachable(g, seeds);
    forall v | v in dist ensures dist[v] == Hops(g, seeds, v) {
      ExactAtMost(g, seeds, dist, v, Hops(g, seeds, v));
    }
  }

  /** What holds between two steps: `held` is the node being expanded, if any. */
  ghost predicate Search(g: Adjacency, seeds: set<nat>, dist: map<nat, nat>, queue: seq<nat>, held: set<nat>, d: nat) {
    && seeds <= dist.Keys <= Universe(g, seeds)
    && Layered(dist, queue, d)
    && Expanded(g, dist, Members(queue) + held)
    && Reached(g, seeds, dist, Members(queue) + held, d)
  }

  lemma DiscoverExact(g: Adjacency, seeds: set<nat>, dist: map<nat, nat>, u: nat, v: nat)
    requires Exact(g, seeds, dist) && u in dist && v in Next(g, u) && v !in dist
    requires Ball(g, seeds, dist[u]) <= dist.Keys
    ensures Exact(g, seeds, dist[v := dist[u] + 1])
  {
  }

  lemma Discover(g: Adjacency, seeds: set<nat>, dist: map<nat, nat>, queue: seq<nat>, u: nat, v: nat)
    requires u in dist && v in Next(g, u) && v !in dist
    requires Search(g, seeds, dist, queue, {u}, dist[u])
    ensures Search(g, seeds, dist[v := dist[u] + 1], queue + [v], {u}, dist[u])
  {
    var pending := Members(queue) + {u};
    DiscoverLayered(dist, queue, v, dist[u]);
    DiscoverExpanded(g, dist, pending, v, dist[u] + 1);
    DiscoverReached(g, seeds, dist, pending, v, dist[u]);
    SuccessorInUniverse(g, seeds, u, v);
    PendingStep(queue, u, v);
  }

  lemma SuccessorInUniverse(g: Adjacency, seeds: set<nat>, u: nat, v: nat)
    requires v in Next(g, u)
    ensures v in Universe(g, seeds)
  {
    assert u in g.Keys && v in Image(g, g.Keys);
  }

  lemma PendingStep(queue: seq<nat>, u: nat, v: nat)
    ensures Members(queue + [v]) + {u} == Members(queue) + {u} + {v}
  {
  }

  lemma DiscoverExpanded(g: Adjacency, dist: map<nat, nat>, pending: set<nat>, v: nat, x: nat)
    requires Expanded(g, dist, pending)
    ensures Expanded(g, dist[v := x], pending + {v})
  {
  }

  lemma DiscoverReached(g: Adjacency, seeds: set<nat>, dist: map<nat, nat>, pending: set<nat>, v: nat, d: nat)
    requires Reached(g, seeds, dist, pending, d) && v !in dist
    ensures Reached(g, seeds, dist[v := d + 1], pending + {v}, d)
  {
  }

  lemma DiscoverLayered(dist: map<nat, nat>, queue: seq<nat>, v: nat, d: nat)
    requires Layered(dist, queue, d) && v !in dist
    ensures Layered(dist[v := d + 1], queue + [v], d)
  {
  }

  ghost predicate Grown(dist: map<nat, nat>, queue: seq<nat>, dist': map<nat, nat>, queue': seq<nat>) {
    && dist.Keys <= dist'.Keys
    && (forall v :: v in dist ==> dist'[v] == dist[v])
    && (dist'.Keys == dist.Keys ==> queue' == queue)
  }

  lemma GrownByOne(dist: map<nat, nat>, queue: seq<nat>, dist': map<nat, nat>, queue': seq<nat>, v: nat, d: nat)
    requires Grown(dist, queue, dist', queue') && v !in dist'
    ensures Grown(dist, queue, dist'[v := d], queue' + [v])
  {
    assert v in dist'[v := d].Keys && v !in dist.Keys;
  }

  lemma GrownTwice(d0: map<nat, nat>, q0: seq<nat>, d1: map<nat, nat>, q1: seq<nat>, d2: map<nat, nat>, q2: seq<nat>)
    requires Grown(d0, q0, d1, q1) && Grown(d1, q1, d2, q2)
    ensures Grown(d0, q0, d2, q2)
  {
  }

  /** Record and queue one successor, unless it is recorded already. */
  method Visit(g: Adjacency, ghost seeds: set<nat>, dist: map<nat, nat>, queue: seq<nat>, u: nat, v: nat)
    returns (dist': map<nat, nat>, queue': seq<nat>)
    requires u in dist && v in Next(g, u) && Exact(g, seeds, dist) && Search(g, seeds, dist, queue, {u}, dist[u])
    ensures Grown(dist, queue, dist', queue') && v in dist'
    ensures Exact(g, seeds, dist') && Search(g, seeds, dist', queue', {u}, dist[u])
  {
    dist', queue' := dist, queue;
    if v !in dist {
      DiscoverExact(g, seeds, dist, u, v);
      Discover(g, seeds, dist, queue, u, v);
      GrownByOne(dist, queue, dist, queue, v, dist[u] + 1);
      dist' := dist[v := dist[u] + 1];
      queue' := queue + [v];
    }
  }

  ghost predicate AllIn(targets: seq<nat>, n: nat, dist: map<nat, nat>) {
    n <= |targets| && forall j :: 0 <= j < n ==> targets[j] in dist
  }

  lemma AllInGrows(targets: seq<nat>, n: nat, d1: map<nat, nat>, q1: seq<nat>, d2: map<nat, nat>, q2: seq<nat>)
    requires n < |targets| && AllIn(targets, n, d1) && Grown(d1, q1, d2, q2) && targets[n] in d2
    ensures AllIn(targets, n + 1, d2)
  {
  }

  method VisitAll(g: Adjacency, ghost seeds: set<nat>, dist: map<nat, nat>, queue: seq<nat>, u: nat, targets: seq<nat>)
    returns (dist': map<nat, nat>, queue': seq<nat>)
    requires u in dist && Exact(g, seeds, dist) && Search(g, seeds, dist, queue, {u}, dist[u])
    requires forall i :: 0 <= i < |targets| ==> targets[i] in Next(g, u)
    ensures Grown(dist, queue, dist', queue') && AllIn(targets, |targets|, dist')
    ensures Exact(g, seeds, dist') && Search(g, seeds, dist', queue', {u}, dist[u])
  {
    dist', queue' := dist, queue;
    for i := 0 to |targets|
      invariant Grown(dist, queue, dist', queue') && AllIn(targets, i, dist')
      invariant Exact(g, seeds, dist') && Search(g, seeds, dist', queue', {u}, dist[u])
    {
      ghost var d1, q1 := dist', queue';
      assert u in dist' && dist'[u] == dist[u];
      dist', queue' := Visit(g, seeds, dist', queue', u, targets[i]);
      GrownTwice(dist, queue, d1, q1, dist', queue');
      AllInGrows(targets, i, d1, q1, dist', queue');
    }
  }

  /** Record and queue the undiscovered successors of one node. */
  method Expand(g: Adjacency, ghost seeds: set<nat>, dist: map<nat, nat>, queue: seq<nat>, u: nat)
    returns (dist': map<nat, nat>, queue': seq<nat>)
    requires u in dist && Exact(g, seeds, dist) && Search(g, seeds, dist, queue, {u}, dist[u])
    ensures Grown(dist, queue, dist', queue')
    ensures Exact(g, seeds, dist') && Search(g, seeds, dist', queue', {}, dist[u])
  {
    var neighbours := AscendingNats(Next(g, u));
    dist', queue' := VisitAll(g, seeds, dist, queue, u, neighbours);
    AscendingNatsMembers(Next(g, u));
    Release(g, seeds, dist', queue', u, dist[u]);
  }

  /** Once all its successors are recorded, the held node is done. */
  lemma Release(g: Adjacency, seeds: set<nat>, dist: map<nat, nat>, queue: seq<nat>, u: nat, d: nat)
    requires Search(g, seeds, dist, queue, {u}, d) && Next(g, u) <= dist.Keys
    ensures Search(g, seeds, dist, queue, {}, d)
  {
    assert Members(queue) + {} == Members(queue);
  }

  /** The head of the queue is its nearest node. */
  lemma HeadIsNearest(dist: map<nat, nat>, queue: seq<nat>, d: nat, v: nat)
    requires queue != [] && Layered(dist, queue, d) && v in Members(queue)
    ensures v in dist && dist[v] >= dist[queue[0]] && d <= dist[queue[0]] <= d + 1
    ensures Layered(dist, queue[1..], dist[queue[0]])
  {
    var i :| 0 <= i < |queue| && queue[i] == v;
    assert i > 0 ==> dist[queue[0]] <= dist[queue[i]];
  }

  /** Taking the head of the queue to expand it, at its own level. */
  lemma Take(g: Adjacency, seeds: set<nat>, dist: map<nat, nat>, queue: seq<nat>, d: nat)
    requires queue != [] && Exact(g, seeds, dist) && Search(g, seeds, dist, queue, {}, d)
    ensures queue[0] in dist && Search(g, seeds, dist, queue[1..], {queue[0]}, dist[queue[0]])
  {
    TakenMembers(queue);
    HeadIsNearest(dist, queue, d, queue[0]);
    TakeReached(g, seeds, dist, queue, d);
  }

  lemma TakenMembers(queue: seq<nat>)
    requires queue != []
    ensures queue[0] in Members(queue) && Members(queue) + {} == Members(queue[1..]) + {queue[0]}
  {
    assert queue == [queue[0]] + queue[1..];
  }

  /** By the time a node is taken, everything up to its level is recorded. */
  lemma TakeReached(g: Adjacency, seeds: set<nat>, dist: map<nat, nat>, queue: seq<nat>, d: nat)
    requires queue != [] && Exact(g, seeds, dist) && Layered(dist, queue, d)
    requires Expanded(g, dist, Members(queue) + {}) && Reached(g, seeds, dist, Members(queue) + {}, d)
    ensures Reached(g, seeds, dist, Members(queue) + {}, dist[queue[0]])
  {
    var pending := Members(queue) + {};
    forall v | v in pending ensures dist[v] >= dist[queue[0]] && d <= dist[queue[0]] <= d + 1 {
      HeadIsNearest(dist, queue, d, v);
    }
    HeadIsNearest(dist, queue, d, queue[0]);
    if dist[queue[0]] > d { NextLevel(g, seeds, dist, pending, d); }
  }

  lemma Begin(g: Adjacency, seeds: set<nat>, queue: seq<nat>)
    requires forall v :: v in queue <==> v in seeds
    ensures Exact(g, seeds, map v | v in seeds :: 0) && Search(g, seeds, map v | v in seeds :: 0, queue, {}, 0)
  {
    assert Members(queue) + {} == seeds;
  }

  /** `bfs_distances`. */
  method BfsDistances(g: Adjacency, seeds: set<nat>) returns (dist: map<nat, nat>)
    ensures dist == Distances(g, seeds)
  {
    dist := map v | v in seeds :: 0;
    var queue := AscendingNats(seeds);
    ghost var d, room := 0, Universe(g, seeds) - dist.Keys;
    AscendingNatsMembers(seeds);
    Begin(g, seeds, queue);
    while queue != []
      invariant Exact(g, seeds, dist) && Search(g, seeds, dist, queue, {}, d)
      invariant room == Universe(g, seeds) - dist.Keys
      decreases room, |queue|
    {
      var current := queue[0];
      Take(g, seeds, dist, queue, d);
      d := dist[current];
      ghost var before := dist.Keys;
      dist, queue := Expand(g, seeds, dist, queue[1..], current);
      Shrinks(Universe(g, seeds), before, dist.Keys);
      room := Universe(g, seeds) - dist.Keys;
    }
    assert Members<nat>([]) + {} == {};
    EmptyQueueDone(g, seeds, dist);
  }
}
