/**
 Truncated multi-source breadth-first search. Whatever `maxNodes` cuts off, the hop
 recorded for a node is its exact distance from the seeds.
 */
module Traversal {
  import opened Collections
  import opened Walks
  import opened RelationGraph

  datatype TraversalStep = TraversalStep(
    fromEntityID: Id,
    toEntityID: Id,
    relationshipID: Id,
    relType: string,
    weight: real,
    hop: nat
  )

  /** The step records relationship `r`, followed along its direction or against it. */
  ghost predicate Follows(store: RelStore, step: TraversalStep, r: Relationship) {
    && step.relationshipID == r.id && step.relType == r.relType && step.weight == r.weight
    && (|| (r in store.GetOutgoing(step.fromEntityID) && r.targetID == step.toEntityID)
        || (r in store.GetIncoming(step.fromEntityID) && r.sourceID == step.toEntityID))
  }

  /** Every recorded hop is an exact distance. */
  ghost predicate Exact(edges: Edges, seeds: set<Id>, visited: map<Id, nat>) {
    && (forall v: Id :: v in seeds ==> v in visited)
    && (forall v: Id :: v in visited ==> IsDistance(edges, seeds, v, visited[v]))
  }

  /** All neighbours of `u` have been visited, at most one hop further. */
  ghost predicate Expanded(edges: Edges, visited: map<Id, nat>, u: Id)
    requires u in visited
  {
    forall w: Id :: (u, w) in edges ==> w in visited && visited[w] <= visited[u] + 1
  }

  /**
   The steps form a forest over the visited nodes: each non-seed node is entered by
   exactly one step, from a seed or from a node entered earlier, one hop closer.
   */
  ghost predicate Forest(store: RelStore, seeds: set<Id>, visited: map<Id, nat>, steps: seq<TraversalStep>) {
    && (forall v: Id :: v in visited <==> v in seeds || exists i :: 0 <= i < |steps| && steps[i].toEntityID == v)
    && (forall i :: 0 <= i < |steps| ==> steps[i].toEntityID !in seeds)
    && (forall i, j :: 0 <= i < j < |steps| ==> steps[i].toEntityID != steps[j].toEntityID)
    && (forall i :: 0 <= i < |steps| ==> StepFits(store, seeds, visited, steps, i))
  }

  ghost predicate StepFits(store: RelStore, seeds: set<Id>, visited: map<Id, nat>, steps: seq<TraversalStep>, i: nat)
    requires i < |steps|
  {
    var s := steps[i];
    && s.fromEntityID in visited && s.toEntityID in visited
    && s.hop == visited[s.toEntityID] == visited[s.fromEntityID] + 1
    && (s.fromEntityID in seeds || exists j :: 0 <= j < i && steps[j].toEntityID == s.fromEntityID)
    && exists r :: Follows(store, s, r)
  }

  /** Nodes queued for expansion: distinct, and within one hop of the head in order. */
  ghost predicate Queued(visited: map<Id, nat>, queue: seq<Id>) {
    && (forall i :: 0 <= i < |queue| ==> queue[i] in visited)
    && (forall i, j :: 0 <= i < j < |queue| ==> queue[i] != queue[j])
    && (forall i, j :: 0 <= i < j < |queue| ==> visited[queue[i]] <= visited[queue[j]] <= visited[queue[i]] + 1)
  }

  /** Some walk of at most `maxHops` edges ends in `v`; the seeds themselves always count. */
  ghost predicate WithinHops(edges: Edges, seeds: set<Id>, maxHops: int, v: Id) {
    exists n: nat :: (n == 0 || n <= maxHops) && Walk(edges, seeds, v, n)
  }

  ghost function SeedSet(seedIDs: seq<Id>): set<Id> {
    set s | s in seedIDs
  }

  /**
   If everything closer than `h` is expanded, then every walk of at most `h` edges
   ends in a visited node that is recorded no further than the walk.
   */
  lemma {:induction false} ShortWalksVisited(edges: Edges, seeds: set<Id>, visited: map<Id, nat>, h: nat, v: Id, n: nat)
    requires forall s: Id :: s in seeds ==> s in visited && visited[s] == 0
    requires forall u: Id :: u in visited && visited[u] < h ==> Expanded(edges, visited, u)
    requires Walk(edges, seeds, v, n) && n <= h
    ensures v in visited && visited[v] <= n
    decreases n
  {
    if n > 0 {
      var u: Id :| Walk(edges, seeds, u, n - 1) && (u, v) in edges;
      ShortWalksVisited(edges, seeds, visited, h, u, n - 1);
    }
  }

  lemma SeedsAtZero(edges: Edges, seeds: set<Id>, visited: map<Id, nat>)
    requires Exact(edges, seeds, visited)
    ensures forall s: Id :: s in seeds ==> s in visited && visited[s] == 0
  {
    forall s | s in seeds
      ensures s in visited && visited[s] == 0
    {
      assert Walk(edges, seeds, s, 0);
    }
  }

  method InitialQueue(seedIDs: seq<Id>) returns (visited: map<Id, nat>, queue: seq<Id>)
    ensures visited.Keys == SeedSet(seedIDs)
    ensures forall v: Id :: v in visited ==> visited[v] == 0 && v in queue
    ensures Queued(visited, queue)
  {
    visited, queue := map[], [];
    for i := 0 to |seedIDs|
      invariant visited.Keys == SeedSet(seedIDs[..i])
      invariant forall v: Id :: v in visited ==> visited[v] == 0 && v in queue
      invariant Queued(visited, queue)
    {
      if seedIDs[i] !in visited {
        visited := visited[seedIDs[i] := 0];
        queue := queue + [seedIDs[i]];
      }
    }
  }

  /** The far end of `r` seen from the node whose outgoing (`forward`) or incoming list holds it. */
  function FarEnd(r: Relationship, forward: bool): Id {
    if forward then r.targetID else r.sourceID
  }

  /** What one scan of a node's list may add: fresh neighbours one hop further, queued in order. */
  ghost predicate Extends(edges: Edges, currentID: Id, hop: nat,
                          visited0: map<Id, nat>, queue0: seq<Id>, visited: map<Id, nat>, queue: seq<Id>) {
    && |queue0| <= |queue| && queue[..|queue0|] == queue0
    && visited0.Keys <= visited.Keys
    && (forall v: Id :: v in visited0 ==> visited[v] == visited0[v])
    && (forall v: Id :: v in visited && v !in visited0 ==>
          visited[v] == hop + 1 && v in queue && (currentID, v) in edges)
    && (forall i :: |queue0| <= i < |queue| ==> queue[i] in visited && queue[i] !in visited0)
  }

  /** Scans one relationship list of the current node. */
  method Scan(store: RelStore, ghost edges: Edges, ghost seeds: set<Id>, rels: seq<Relationship>, forward: bool,
              currentID: Id, currentHop: nat, maxNodes: int,
              visited0: map<Id, nat>, queue0: seq<Id>, steps0: seq<TraversalStep>)
    returns (visited: map<Id, nat>, queue: seq<Id>, traversal: seq<TraversalStep>)
    requires edges == store.Neighbourhood()
    requires rels == if forward then store.GetOutgoing(currentID) else store.GetIncoming(currentID)
    requires currentID in visited0 && visited0[currentID] == currentHop
    requires Scanning(store, seeds, visited0, queue0, steps0, currentHop)
    requires |visited0| < maxNodes
    ensures Scanning(store, seeds, visited, queue, traversal, currentHop)
    ensures Extends(edges, currentID, currentHop, visited0, queue0, visited, queue)
    ensures |visited| <= maxNodes
    ensures |visited| < maxNodes ==> forall r :: r in rels ==> FarEnd(r, forward) in visited
  {
    visited, queue, traversal := visited0, queue0, steps0;
    for k := 0 to |rels|
      invariant Scanning(store, seeds, visited, queue, traversal, currentHop)
      invariant Extends(edges, currentID, currentHop, visited0, queue0, visited, queue)
      invariant |visited| < maxNodes
      invariant forall i :: 0 <= i < k ==> FarEnd(rels[i], forward) in visited
    {
      var far := FarEnd(rels[k], forward);
      if far !in visited {
        var step := TraversalStep(currentID, far, rels[k].id, rels[k].relType, rels[k].weight, currentHop + 1);
        Discover(store, seeds, visited, queue, traversal, currentHop, rels[k], forward, step);
        ExtendsGrows(edges, currentID, currentHop, visited0, queue0, visited, queue, far);
        visited := visited[far := currentHop + 1];
        queue := queue + [far];
        traversal := traversal + [step];
        if |visited| >= maxNodes {
          break;
        }
      }
    }
  }

  lemma ExtendsGrows(edges: Edges, currentID: Id, hop: nat, visited0: map<Id, nat>, queue0: seq<Id>,
                     visited: map<Id, nat>, queue: seq<Id>, w: Id)
    requires Extends(edges, currentID, hop, visited0, queue0, visited, queue)
    requires w !in visited && (currentID, w) in edges
    ensures Extends(edges, currentID, hop, visited0, queue0, visited[w := hop + 1], queue + [w])
  {
    var queue' := queue + [w];
    assert queue'[..|queue0|] == queue[..|queue0|];
    assert queue'[|queue|] == w;
    forall v: Id | v in visited && v !in visited0
      ensures v in queue'
    {
      assert v in queue;
    }
  }

  /** The bookkeeping inside a scan of a node at distance `hop`. */
  ghost predicate Scanning(store: RelStore, seeds: set<Id>, visited: map<Id, nat>, queue: seq<Id>,
                           steps: seq<TraversalStep>, hop: nat) {
    && Queued(visited, queue) && Forest(store, seeds, visited, steps)
    && forall i :: 0 <= i < |queue| ==> hop <= visited[queue[i]] <= hop + 1
  }

  lemma Discover(store: RelStore, seeds: set<Id>, visited: map<Id, nat>, queue: seq<Id>,
                 steps: seq<TraversalStep>, hop: nat, rel: Relationship, forward: bool, step: TraversalStep)
    requires Scanning(store, seeds, visited, queue, steps, hop)
    requires step.fromEntityID in visited && visited[step.fromEntityID] == hop
    requires rel in if forward then store.GetOutgoing(step.fromEntityID) else store.GetIncoming(step.fromEntityID)
    requires step.toEntityID == FarEnd(rel, forward) && step.toEntityID !in visited && step.hop == hop + 1
    requires step.relationshipID == rel.id && step.relType == rel.relType && step.weight == rel.weight
    ensures Scanning(store, seeds, visited[step.toEntityID := hop + 1], queue + [step.toEntityID], steps + [step], hop)
    ensures (step.fromEntityID, step.toEntityID) in store.Neighbourhood()
  {
    assert Follows(store, step, rel);
    ForestGrows(store, seeds, visited, steps, step);
  }

  /** Exactness survives a scan of a node at distance `hop` if everything that close was known before. */
  lemma StillExact(edges: Edges, seeds: set<Id>, currentID: Id, hop: nat,
                   visited0: map<Id, nat>, queue0: seq<Id>, visited: map<Id, nat>, queue: seq<Id>)
    requires Exact(edges, seeds, visited0) && currentID in visited0 && visited0[currentID] == hop
    requires KnowsUpTo(edges, seeds, visited0, hop)
    requires Extends(edges, currentID, hop, visited0, queue0, visited, queue)
    ensures Exact(edges, seeds, visited) && KnowsUpTo(edges, seeds, visited, hop)
  {
  }

  /** Every node some walk of at most `h` edges reaches has been visited. */
  ghost predicate KnowsUpTo(edges: Edges, seeds: set<Id>, visited: map<Id, nat>, h: nat) {
    forall v: Id, m: nat :: m <= h && Walk(edges, seeds, v, m) ==> v in visited
  }

  lemma ForestGrows(store: RelStore, seeds: set<Id>, visited: map<Id, nat>, steps: seq<TraversalStep>, step: TraversalStep)
    requires Forest(store, seeds, visited, steps)
    requires step.fromEntityID in visited && step.toEntityID !in visited
    requires step.hop == visited[step.fromEntityID] + 1
    requires exists r :: Follows(store, step, r)
    ensures Forest(store, seeds, visited[step.toEntityID := step.hop], steps + [step])
  {
    var visited', steps' := visited[step.toEntityID := step.hop], steps + [step];
    forall i | 0 <= i < |steps'|
      ensures StepFits(store, seeds, visited', steps', i)
    {
      if i < |steps| {
        assert StepFits(store, seeds, visited, steps, i);
      }
      var s := steps'[i];
      if s.fromEntityID !in seeds {
        var bound := if i < |steps| then i else |steps|;
        var j :| 0 <= j < bound && steps[j].toEntityID == s.fromEntityID;
        assert steps'[j] == steps[j];
      }
    }
    forall v: Id
      ensures v in visited' <==> v in seeds || exists i :: 0 <= i < |steps'| && steps'[i].toEntityID == v
    {
      if v == step.toEntityID {
        assert steps'[|steps|].toEntityID == v;
      } else if v in visited && v !in seeds {
        var i :| 0 <= i < |steps| && steps[i].toEntityID == v;
        assert steps'[i].toEntityID == v;
      }
    }
  }

  /** Nodes listed in order of hop; ties come in any order, as the library sort leaves them. */
  ghost predicate ListsByHop(visited: map<Id, nat>, nodeIDs: seq<Id>) {
    && (forall v: Id :: v in visited <==> v in nodeIDs)
    && (forall i, j :: 0 <= i < j < |nodeIDs| ==> nodeIDs[i] != nodeIDs[j] && visited[nodeIDs[i]] <= visited[nodeIDs[j]])
  }

  lemma {:induction false} Closest(visited: map<Id, nat>, rest: set<Id>) returns (v: Id)
    requires rest <= visited.Keys && |rest| > 0
    ensures v in rest && forall w: Id :: w in rest ==> visited[v] <= visited[w]
    decreases rest
  {
    var v0: Id :| v0 in rest;
    var others := rest - {v0};
    v := v0;
    if |others| > 0 {
      var u := Closest(visited, others);
      if visited[u] < visited[v0] {
        v := u;
      }
    }
  }

  method SortByHop(visited: map<Id, nat>) returns (nodeIDs: seq<Id>)
    ensures ListsByHop(visited, nodeIDs)
  {
    nodeIDs := [];
    var rest := visited.Keys;
    while rest != {}
      invariant rest <= visited.Keys
      invariant forall v: Id :: v in visited <==> v in nodeIDs || v in rest
      invariant forall i :: 0 <= i < |nodeIDs| ==> nodeIDs[i] in visited && nodeIDs[i] !in rest
      invariant forall i, w: Id :: 0 <= i < |nodeIDs| && w in rest ==> visited[nodeIDs[i]] <= visited[w]
      invariant forall i, j :: 0 <= i < j < |nodeIDs| ==> nodeIDs[i] != nodeIDs[j] && visited[nodeIDs[i]] <= visited[nodeIDs[j]]
      decreases rest
    {
      ghost var closest := Closest(visited, rest);
      var v: Id :| v in rest && forall w: Id :: w in rest ==> visited[v] <= visited[w];
      nodeIDs := nodeIDs + [v];
      rest := rest - {v};
    }
  }

  /** `u` needs no (further) expansion: out of range, or all its neighbours are in. */
  ghost predicate Settled(edges: Edges, visited: map<Id, nat>, maxHops: int, u: Id)
    requires u in visited
  {
    visited[u] >= maxHops || Expanded(edges, visited, u)
  }

  /** A node whose two lists lead only to visited nodes is expanded. */
  lemma ScannedBoth(store: RelStore, seeds: set<Id>, visited: map<Id, nat>, u: Id)
    requires Exact(store.Neighbourhood(), seeds, visited) && u in visited
    requires forall r :: r in store.GetOutgoing(u) ==> r.targetID in visited
    requires forall r :: r in store.GetIncoming(u) ==> r.sourceID in visited
    ensures Expanded(store.Neighbourhood(), visited, u)
  {
    var edges := store.Neighbourhood();
    forall w: Id | (u, w) in edges
      ensures w in visited && visited[w] <= visited[u] + 1
    {
      var r, forward := store.NeighbourhoodWitness(u, w);
      WalkStep(edges, seeds, u, w, visited[u]);
    }
  }

  /** What the main loop keeps while the search runs: nodes out of the queue are settled. */
  ghost predicate Pending(edges: Edges, seeds: set<Id>, maxHops: int, visited: map<Id, nat>, queue: seq<Id>) {
    && Queued(visited, queue)
    && forall u: Id :: u in visited && u !in queue ==> Settled(edges, visited, maxHops, u)
  }

  lemma Skip(edges: Edges, seeds: set<Id>, maxHops: int, visited: map<Id, nat>, queue: seq<Id>)
    requires Pending(edges, seeds, maxHops, visited, queue) && |queue| > 0
    requires visited[queue[0]] >= maxHops
    ensures Pending(edges, seeds, maxHops, visited, queue[1..])
  {
  }

  /** Once the head has been scanned in both directions it joins the settled nodes. */
  lemma HeadSettled(edges: Edges, seeds: set<Id>, maxHops: int, visited0: map<Id, nat>, queue0: seq<Id>,
                    visited: map<Id, nat>, queue: seq<Id>)
    requires Pending(edges, seeds, maxHops, visited0, queue0) && |queue0| > 0
    requires Queued(visited, queue)
    requires visited0.Keys <= visited.Keys && forall v: Id :: v in visited0 ==> visited[v] == visited0[v]
    requires forall v: Id :: v in visited && v !in visited0 ==> v in queue
    requires |queue0| - 1 <= |queue| && queue[..|queue0| - 1] == queue0[1..]
    requires Expanded(edges, visited, queue0[0])
    ensures Pending(edges, seeds, maxHops, visited, queue)
  {
  }

  /** Takes the head off the queue and scans its outgoing, then its incoming relationships. */
  method Visit(store: RelStore, ghost edges: Edges, ghost seeds: set<Id>, maxNodes: int,
               visited0: map<Id, nat>, queue0: seq<Id>, steps0: seq<TraversalStep>)
    returns (visited: map<Id, nat>, queue: seq<Id>, traversal: seq<TraversalStep>)
    requires edges == store.Neighbourhood() && |visited0| < maxNodes && |queue0| > 0
    requires Queued(visited0, queue0) && Forest(store, seeds, visited0, steps0)
    ensures Queued(visited, queue) && Forest(store, seeds, visited, traversal)
    ensures Extends(edges, queue0[0], visited0[queue0[0]], visited0, queue0[1..], visited, queue)
    ensures |visited| <= maxNodes
    ensures |visited| < maxNodes ==> LeadsOnlyTo(store, queue0[0], visited)
  {
    var currentID := queue0[0];
    queue := queue0[1..];
    var currentHop := visited0[currentID];
    visited, queue, traversal := Scan(store, edges, seeds, store.GetOutgoing(currentID), true,
                                      currentID, currentHop, maxNodes, visited0, queue, steps0);
    if |visited| >= maxNodes {
      return;
    }
    ghost var visited1, queue1 := visited, queue;
    visited, queue, traversal := Scan(store, edges, seeds, store.GetIncoming(currentID), false,
                                      currentID, currentHop, maxNodes, visited, queue, traversal);
  }

  ghost predicate LeadsOnlyTo(store: RelStore, u: Id, visited: map<Id, nat>) {
    && (forall r :: r in store.GetOutgoing(u) ==> r.targetID in visited)
    && (forall r :: r in store.GetIncoming(u) ==> r.sourceID in visited)
  }

  /** What visiting the head of the queue does to the search as a whole. */
  lemma AfterVisit(store: RelStore, seeds: set<Id>, maxHops: int, maxNodes: int,
                   visited0: map<Id, nat>, queue0: seq<Id>, visited: map<Id, nat>, queue: seq<Id>)
    requires |queue0| > 0 && Exact(store.Neighbourhood(), seeds, visited0)
    requires Pending(store.Neighbourhood(), seeds, maxHops, visited0, queue0) && visited0[queue0[0]] < maxHops
    requires Queued(visited, queue)
    requires Extends(store.Neighbourhood(), queue0[0], visited0[queue0[0]], visited0, queue0[1..], visited, queue)
    requires |visited| < maxNodes ==> LeadsOnlyTo(store, queue0[0], visited)
    ensures Exact(store.Neighbourhood(), seeds, visited)
    ensures |visited| < maxNodes ==> Pending(store.Neighbourhood(), seeds, maxHops, visited, queue)
    ensures |visited| > |visited0| || (visited == visited0 && queue == queue0[1..])
  {
    var edges := store.Neighbourhood();
    ReadyToExpand(edges, seeds, visited0, queue0, maxHops);
    StillExact(edges, seeds, queue0[0], visited0[queue0[0]], visited0, queue0[1..], visited, queue);
    if |visited| < maxNodes {
      ScannedBoth(store, seeds, visited, queue0[0]);
      HeadSettled(edges, seeds, maxHops, visited0, queue0, visited, queue);
    }
    QueueOnlyGrowsWithVisited(visited0, queue0[1..], visited, queue);
  }

  /** A scan that found nothing new queued nothing new. */
  lemma QueueOnlyGrowsWithVisited(visited0: map<Id, nat>, queue0: seq<Id>, visited: map<Id, nat>, queue: seq<Id>)
    requires visited0.Keys <= visited.Keys
    requires forall v: Id :: v in visited0 ==> visited[v] == visited0[v]
    requires |queue0| <= |queue| && queue[..|queue0|] == queue0
    requires forall i :: |queue0| <= i < |queue| ==> queue[i] in visited && queue[i] !in visited0
    ensures |visited0| <= |visited|
    ensures |visited0| == |visited| ==> visited == visited0 && queue == queue0
  {
    assert |queue0| < |queue| ==> queue[|queue0|] in visited && queue[|queue0|] !in visited0;
    Growth(visited0, visited);
  }

  lemma Growth(smaller: map<Id, nat>, larger: map<Id, nat>)
    requires smaller.Keys <= larger.Keys
    requires forall v: Id :: v in smaller ==> larger[v] == smaller[v]
    ensures |smaller| <= |larger|
    ensures |smaller| == |larger| ==> smaller == larger
  {
    SubsetSize(smaller.Keys, larger.Keys);
  }

  method BFSTraversal(seedIDs: seq<Id>, store: RelStore, maxHops: int, maxNodes: int)
    returns (nodeIDs: seq<Id>, visited: map<Id, nat>, traversal: seq<TraversalStep>)
    // every hop is the true distance, even when the search was cut short
    ensures Exact(store.Neighbourhood(), SeedSet(seedIDs), visited)
    // hops and nodes stay within their bounds, seeds excepted
    ensures forall v: Id :: v in visited && v !in SeedSet(seedIDs) ==> visited[v] <= maxHops
    ensures |visited| <= maxNodes || visited.Keys == SeedSet(seedIDs)
    // if it was not cut short, it found everything within reach
    ensures |visited| < maxNodes ==>
              forall v: Id :: v in visited <==> WithinHops(store.Neighbourhood(), SeedSet(seedIDs), maxHops, v)
    ensures Forest(store, SeedSet(seedIDs), visited, traversal)
    ensures ListsByHop(visited, nodeIDs)
  {
    ghost var edges, seeds := store.Neighbourhood(), SeedSet(seedIDs);
    var queue;
    visited, queue := InitialQueue(seedIDs);
    traversal := [];
    while |queue| > 0 && |visited| < maxNodes
      invariant Exact(edges, seeds, visited) && Forest(store, seeds, visited, traversal)
      invariant Pending(edges, seeds, maxHops, visited, queue) || |visited| >= maxNodes
      invariant forall v: Id :: v in visited && v !in seeds ==> visited[v] <= maxHops
      invariant |visited| <= maxNodes || visited.Keys == seeds
      decreases if |visited| < maxNodes then maxNodes - |visited| else 0, |queue|
    {
      var currentID := queue[0];
      var currentHop := visited[currentID];
      if currentHop < maxHops {
        ghost var visited0, queue0 := visited, queue;
        visited, queue, traversal := Visit(store, edges, seeds, maxNodes, visited, queue, traversal);
        AfterVisit(store, seeds, maxHops, maxNodes, visited0, queue0, visited, queue);
      } else {
        Skip(edges, seeds, maxHops, visited, queue);
        queue := queue[1..];
      }
    }
    if |visited| < maxNodes {
      Complete(edges, seeds, visited, maxHops);
    }
    nodeIDs := SortByHop(visited);
  }

  /** At the head of the queue every node closer than the head is already expanded. */
  lemma ReadyToExpand(edges: Edges, seeds: set<Id>, visited: map<Id, nat>, queue: seq<Id>, maxHops: int)
    requires Exact(edges, seeds, visited) && Queued(visited, queue) && |queue| > 0
    requires forall u: Id :: u in visited && u !in queue ==> Settled(edges, visited, maxHops, u)
    requires visited[queue[0]] < maxHops
    ensures KnowsUpTo(edges, seeds, visited, visited[queue[0]])
  {
    SeedsAtZero(edges, seeds, visited);
    forall v: Id, m: nat | m <= visited[queue[0]] && Walk(edges, seeds, v, m)
      ensures v in visited
    {
      ShortWalksVisited(edges, seeds, visited, visited[queue[0]], v, m);
    }
  }

  /** With the queue drained, the visited nodes are exactly those within `maxHops`. */
  lemma Complete(edges: Edges, seeds: set<Id>, visited: map<Id, nat>, maxHops: int)
    requires Exact(edges, seeds, visited)
    requires forall u: Id :: u in visited ==> Settled(edges, visited, maxHops, u)
    requires forall v: Id :: v in visited && v !in seeds ==> visited[v] <= maxHops
    ensures forall v: Id :: v in visited <==> WithinHops(edges, seeds, maxHops, v)
  {
    SeedsAtZero(edges, seeds, visited);
    forall v: Id
      ensures v in visited <==> WithinHops(edges, seeds, maxHops, v)
    {
      if v in visited {
        var n := visited[v];
      } else if WithinHops(edges, seeds, maxHops, v) {
        var n: nat :| (n == 0 || n <= maxHops) && Walk(edges, seeds, v, n);
        ShortWalksVisited(edges, seeds, visited, n, v, n);
      }
    }
  }
}
