/**
 The clustering object: builds the weighted graph from its stores, clusters all nodes
 or a subset, and splits communities level by level.
 */
module Leiden {
  import opened Collections
  import opened RelationGraph
  import opened Sums
  import opened Modularity
  import opened LocalMoving
  import opened WeightedGraphs
  import opened Subgraphs
  import opened Hierarchy
  import opened Splits
  import opened Walks

  function Power(base: real, exponent: nat): real {
    if exponent == 0 then 1.0 else base * Power(base, exponent - 1)
  }

  /** The resolution a level is split at. */
  function ResolutionAt(resolution: real, levelResolution: real, level: nat): real {
    resolution * Power(levelResolution, level)
  }

  /** From level to level the resolution changes by the same factor. */
  lemma ResolutionSteps(resolution: real, levelResolution: real, level: nat)
    ensures ResolutionAt(resolution, levelResolution, 0) == resolution
    ensures ResolutionAt(resolution, levelResolution, level + 1) == levelResolution * ResolutionAt(resolution, levelResolution, level)
  {
  }

  /** Two nodes share a list exactly when `part` puts them in one community. */
  ghost predicate Classes(lists: seq<seq<Id>>, part: map<Id, Comm>) {
    forall u: Id, v: Id :: u in part && v in part ==> (part[u] == part[v] <==> Together(lists, u, v))
  }

  /** The partition into single nodes. */
  ghost function Apart(nodes: set<Id>): map<Id, Comm> {
    map v | v in nodes :: v
  }

  /**
   What local moving from all apart achieves: no worse, and either settled or better by what
   every pass had to gain; strictly better if there is time for a pass and some node would gain
   enough by joining a neighbour.
   */
  ghost predicate WellMoved(g: WeightedGraph, part: map<Id, Comm>, iterations: int, minDelta: real) {
    var apart := Apart(g.adj.Keys);
    && Quality(g, part) >= Quality(g, apart)
    && (AllSettled(g, part, minDelta) || Rose(Quality(g, apart), Quality(g, part), minDelta, iterations))
    && (iterations >= 1 && !AllSettled(g, apart, minDelta) ==>
          Quality(g, part) > Quality(g, apart) + 2.0 * Threshold(minDelta))
  }

  /** `lists` are the classes of a well moved partition of the graph's nodes. */
  ghost predicate GoodClustering(g: WeightedGraph, lists: seq<seq<Id>>, iterations: int, minDelta: real) {
    && IsPartition(lists, g.adj.Keys)
    && exists part: map<Id, Comm> :: part.Keys == g.adj.Keys && Classes(lists, part)
                                     && WellMoved(g, part, iterations, minDelta)
  }

  lemma GoodBecause(g: WeightedGraph, lists: seq<seq<Id>>, part: map<Id, Comm>, iterations: int, minDelta: real)
    requires IsPartition(lists, g.adj.Keys) && part.Keys == g.adj.Keys && Classes(lists, part)
    requires WellMoved(g, part, iterations, minDelta)
    ensures GoodClustering(g, lists, iterations, minDelta)
  {
  }

  /** No list holds nodes of two components of the graph. */
  ghost predicate WithinComponents(g: WeightedGraph, lists: seq<seq<Id>>) {
    forall u: Id, v: Id :: Together(lists, u, v) ==> Reachable(EdgesOf(g), {u}, v)
  }

  lemma StartsApart(g: WeightedGraph, part: map<Id, Comm>, minDelta: real)
    requires part.Keys == g.adj.Keys && Singletons(part)
    ensures Quality(g, part) == Quality(g, Apart(g.adj.Keys))
    ensures AllSettled(g, part, minDelta) ==> AllSettled(g, Apart(g.adj.Keys), minDelta)
  {
    QualityOfSamePartition(g, part, Apart(g.adj.Keys));
    if AllSettled(g, part, minDelta) {
      SettledOfSamePartition(g, Apart(g.adj.Keys), part, minDelta);
    }
  }

  lemma ListsAreClasses(g: WeightedGraph, lists: seq<seq<Id>>, part: map<Id, Comm>)
    requires IsPartition(lists, g.adj.Keys) && part.Keys == g.adj.Keys && Componentwise(g, part)
    requires forall u: Id, v: Id :: u in part && v in part ==> (part[u] == part[v] <==> Together(lists, u, v))
    ensures Classes(lists, part) && WithinComponents(g, lists)
  {
    hide Quality;
    forall u: Id, v: Id | Together(lists, u, v) ensures Reachable(EdgesOf(g), {u}, v) {
      assert Together(lists, u, u) && Together(lists, v, v);
      assert u in part && v in part;
    }
  }

  /** Clusters a graph from single nodes up. */
  method Cluster(g: WeightedGraph, iterations: int, minDelta: real)
    returns (result: seq<seq<Id>>, nodeToComm: map<Id, Comm>, commNodes: map<Comm, seq<Id>>)
    requires ClosedGraph(g)
    ensures GoodClustering(g, result, iterations, minDelta) && WithinComponents(g, result)
    ensures nodeToComm.Keys == g.adj.Keys && Agree(nodeToComm, commNodes)
  {
    hide Quality, AllSettled, Rose, Singletons, IsPartition, Agree, Classes, Componentwise, WithinComponents;
    var p := new Partition(g, minDelta);
    StartsApart(g, p.nodeToComm, minDelta);
    SingletonsComponentwise(g, p.nodeToComm);
    p.Run(iterations);
    result := p.Collect();
    ListsAreClasses(g, result, p.nodeToComm);
    GoodBecause(g, result, p.nodeToComm, iterations, minDelta);
    nodeToComm, commNodes := p.nodeToComm, p.commNodes;
  }

  lemma NothingToCluster(g: WeightedGraph, iterations: int, minDelta: real)
    requires g.adj == map[]
    ensures GoodClustering(g, [], iterations, minDelta) && WithinComponents(g, [])
  {
    assert Apart(g.adj.Keys) == map[];
    assert AllSettled(g, map[], minDelta);
    GoodBecause(g, [], map[], iterations, minDelta);
  }

  /** An empty graph has no communities and leaves the previous partition in place. */
  method ClusterUnlessEmpty(g: WeightedGraph, iterations: int, minDelta: real, part0: map<Id, Comm>, comms0: map<Comm, seq<Id>>)
    returns (result: seq<seq<Id>>, nodeToComm: map<Id, Comm>, commNodes: map<Comm, seq<Id>>)
    requires ClosedGraph(g)
    ensures GoodClustering(g, result, iterations, minDelta) && WithinComponents(g, result)
    ensures g.adj == map[] ==> result == [] && nodeToComm == part0 && commNodes == comms0
  {
    if g.adj == map[] {
      NothingToCluster(g, iterations, minDelta);
      return [], part0, comms0;
    }
    result, nodeToComm, commNodes := Cluster(g, iterations, minDelta);
  }

  /** Divided into the classes of a well moved partition of the set's own graph, each within one component of it. */
  ghost predicate DividedWell(adj: map<Id, map<Id, real>>, resolution: real, iterations: int, minDelta: real,
                              nodes: set<Id>, lists: seq<seq<Id>>) {
    exists ids: seq<Id>, sub: WeightedGraph ::
      Members(ids) == nodes && IsSubgraph(adj, ids, sub) && sub.resolution == resolution
      && GoodClustering(sub, lists, iterations, minDelta) && WithinComponents(sub, lists)
  }

  ghost function Divided(adj: map<Id, map<Id, real>>, resolution: real, levelResolution: real, iterations: int, minDelta: real):
    (set<Id>, nat, seq<seq<Id>>) -> bool
  {
    (nodes: set<Id>, level: nat, lists: seq<seq<Id>>) =>
      DividedWell(adj, ResolutionAt(resolution, levelResolution, level), iterations, minDelta, nodes, lists)
  }

  lemma DividedBecause(adj: map<Id, map<Id, real>>, resolution: real, levelResolution: real, iterations: int, minDelta: real,
                       ids: seq<Id>, level: nat, lists: seq<seq<Id>>, sub: WeightedGraph)
    requires IsSubgraph(adj, ids, sub) && sub.resolution == ResolutionAt(resolution, levelResolution, level)
    requires GoodClustering(sub, lists, iterations, minDelta) && WithinComponents(sub, lists)
    ensures Divided(adj, resolution, levelResolution, iterations, minDelta)(Members(ids), level, lists)
  {
    hide DividedWell, GoodClustering, WithinComponents, IsSubgraph, Members, ResolutionAt;
    WellDividedBecause(adj, iterations, minDelta, ids, lists, sub);
  }

  lemma WellDividedBecause(adj: map<Id, map<Id, real>>, iterations: int, minDelta: real, ids: seq<Id>, lists: seq<seq<Id>>,
                           sub: WeightedGraph)
    requires IsSubgraph(adj, ids, sub) && GoodClustering(sub, lists, iterations, minDelta) && WithinComponents(sub, lists)
    ensures DividedWell(adj, sub.resolution, iterations, minDelta, Members(ids), lists)
  {
    hide GoodClustering, WithinComponents, IsSubgraph, Members, ResolutionAt;
  }

  class Clustering {
    const entityIDs: seq<Id>
    const rels: seq<Relationship>
    const resolution: real
    const iterations: int
    const minDelta: real
    const maxLevels: int
    const minCommunitySize: int
    const levelResolution: real

    var nodeToComm: map<Id, Comm>
    var commNodes: map<Comm, seq<Id>>
    var adjWeights: map<Id, map<Id, real>>
    var nodeStrength: map<Id, real>
    var totalWeight: real

    constructor (entityIDs: seq<Id>, rels: seq<Relationship>, resolution: real, iterations: int, minDelta: real,
                 maxLevels: int, minCommunitySize: int, levelResolution: real)
      ensures this.entityIDs == entityIDs && this.rels == rels && this.resolution == resolution
      ensures this.maxLevels == maxLevels && this.minCommunitySize == minCommunitySize
      ensures this.iterations == iterations && this.minDelta == minDelta && this.levelResolution == levelResolution
    {
      this.entityIDs, this.rels := entityIDs, rels;
      this.resolution, this.iterations, this.minDelta := resolution, iterations, minDelta;
      this.maxLevels, this.minCommunitySize, this.levelResolution := maxLevels, minCommunitySize, levelResolution;
      nodeToComm, commNodes, adjWeights, nodeStrength, totalWeight := map[], map[], map[], map[], 0.0;
    }

    ghost function Graph(): WeightedGraph
      reads this
    {
      WeightedGraph(adjWeights, nodeStrength, totalWeight, resolution)
    }

    /** The limits a hierarchy over the present graph is held to. */
    ghost function Bounds(): Limits
      reads this
    {
      Limits(minCommunitySize, maxLevels, Unsplittable(adjWeights),
             Divided(adjWeights, resolution, levelResolution, iterations, minDelta))
    }

    method Build()
      modifies this
      ensures Built(entityIDs, rels, adjWeights, nodeStrength, totalWeight) && ClosedGraph(Graph())
    {
      adjWeights, nodeStrength, totalWeight := BuildGraph(entityIDs, rels);
      BuiltIsClosed(entityIDs, rels, adjWeights, nodeStrength, totalWeight, resolution);
    }

    /** Clusters the whole graph. */
    method ComputeCommunities() returns (result: seq<seq<Id>>)
      modifies this
      ensures Built(entityIDs, rels, adjWeights, nodeStrength, totalWeight)
      ensures GoodClustering(Graph(), result, iterations, minDelta) && WithinComponents(Graph(), result)
    {
      hide Built, ClosedGraph, GoodClustering, WithinComponents;
      Build();
      result, nodeToComm, commNodes :=
        ClusterUnlessEmpty(WeightedGraph(adjWeights, nodeStrength, totalWeight, resolution), iterations, minDelta, nodeToComm, commNodes);
    }

    /** Clusters some of the nodes; the rest of the graph is ignored. */
    method LeidenOnSubset(ids: seq<Id>, level: nat) returns (result: seq<seq<Id>>, ghost sub: WeightedGraph)
      requires Distinct(ids) && |ids| > 0 && Graph().SymmetricWeights()
      ensures IsPartition(result, Members(ids))
      ensures IsSubgraph(adjWeights, ids, sub) && sub.resolution == ResolutionAt(resolution, levelResolution, level)
      ensures GoodClustering(sub, result, iterations, minDelta)
      ensures |result| >= 2 ==> WithinComponents(sub, result)
      ensures |result| <= 1 ==> Unsplittable(adjWeights)(Members(ids))
    {
      hide IsSubgraph, IsPartition, Distinct, WellMoved, Classes, Unsplittable, WithinComponents;
      var g := BuildSubgraph(adjWeights, ids, ResolutionAt(resolution, levelResolution, level));
      sub := g;
      if |ids| < 2 || g.total == 0.0 {
        WholeIsGood(adjWeights, g, ids, iterations, minDelta);
        WholeIsUnsplittable(adjWeights, g, ids);
        return [ids], sub;
      }
      SubgraphIsClosed(Graph(), ids, g);
      var nodes, comms;
      result, nodes, comms := Cluster(g, iterations, minDelta);
      SubsetIsCovered(adjWeights, g, ids);
      OneListIsUnsplittable(adjWeights, g, ids, result);
    }

    method Split(ids: seq<Id>, level: nat) returns (subs: seq<seq<Id>>)
      requires Distinct(ids) && |ids| > 0 && Graph().SymmetricWeights()
      ensures IsPartition(subs, Members(ids))
      ensures |subs| <= 1 ==> Bounds().whole(Members(ids))
      ensures |subs| >= 2 ==> Bounds().splitting(Members(ids), level, subs)
    {
      hide IsPartition, Distinct, Unsplittable, Divided, GoodClustering, WithinComponents, IsSubgraph;
      ghost var sub;
      subs, sub := LeidenOnSubset(ids, level);
      if |subs| >= 2 {
        DividedBecause(adjWeights, resolution, levelResolution, iterations, minDelta, ids, level, subs, sub);
      }
    }

    /** Splits communities level by level into a nested hierarchy. */
    method ComputeHierarchicalCommunities() returns (result: Levels)
      modifies this
      ensures Built(entityIDs, rels, adjWeights, nodeStrength, totalWeight)
      ensures Nested(result, NodesOf(entityIDs, rels)) && Thorough(Bounds(), result, NodesOf(entityIDs, rels), [])
      ensures |result| <= if maxLevels < 0 then 0 else maxLevels
    {
      Build();
      result := SplitAll();
    }

    /** Before anything is split, the whole node set waits in the queue. */
    lemma StartsThorough(ids: seq<Id>, nodes: set<Id>)
      requires Distinct(ids) && nodes != {} && forall v: Id :: v in ids <==> v in nodes
      ensures Nested([], nodes) && QueueOk([], nodes, [SplitTask(ids, 0, -1)])
      ensures Thorough(Bounds(), [], nodes, [SplitTask(ids, 0, -1)])
    {
      var v: Id :| v in nodes;
      assert v in ids && Members(ids) == nodes;
      var queue := [SplitTask(ids, 0, -1)];
      assert queue[0].level == 0 && Queued(queue, 0, -1);
    }

    /** No nodes, nothing to split. */
    lemma EmptyIsThorough()
      ensures Nested([], {}) && Thorough(Bounds(), [], {}, [])
    {
      hide InnerWeight;
      assert ConnectedIn(adjWeights, {});
    }

    method SplitAll() returns (result: Levels)
      requires Graph().SymmetricWeights()
      ensures Nested(result, adjWeights.Keys) && Thorough(Bounds(), result, adjWeights.Keys, [])
      ensures |result| <= if maxLevels < 0 then 0 else maxLevels
    {
      hide *;
      result := [];
      if adjWeights == map[] {
        EmptyIsThorough();
        assert adjWeights.Keys == {};
        return;
      }
      ghost var nodes := adjWeights.Keys;
      var allEntities := AnyOrder(adjWeights.Keys);
      StartsThorough(allEntities, nodes);
      var queue := [SplitTask(allEntities, 0, -1)];
      while |queue| > 0
        invariant Nested(result, nodes) && QueueOk(result, nodes, queue) && Thorough(Bounds(), result, nodes, queue)
        invariant |result| <= if maxLevels < 0 then 0 else maxLevels
        decreases QueueWeight(queue, maxLevels)
      {
        var task, rest := queue[0], queue[1..];
        assert queue == [task] + rest;
        PopQueue(result, nodes, task, rest);
        result, queue := Process(result, nodes, task, rest);
      }
    }

    /** One round of the work loop: tries to split the community of one task. */
    method Process(levels0: Levels, ghost nodes: set<Id>, task: SplitTask, rest: seq<SplitTask>)
      returns (levels: Levels, queue: seq<SplitTask>)
      requires Graph().SymmetricWeights()
      requires Nested(levels0, nodes) && TaskOk(levels0, nodes, task) && QueueOk(levels0, nodes, rest)
      requires forall a :: 0 <= a < |rest| ==> rest[a].level != task.level || rest[a].parentIdx != task.parentIdx
      requires Thorough(Bounds(), levels0, nodes, [task] + rest)
      ensures Nested(levels, nodes) && QueueOk(levels, nodes, queue) && Thorough(Bounds(), levels, nodes, queue)
      ensures |levels| == |levels0| || (|levels| == task.level + 1 && task.level < maxLevels)
      ensures QueueWeight(queue, maxLevels) < QueueWeight([task] + rest, maxLevels)
    {
      hide Nested, QueueOk, QueueWeight, IsPartition, AfterSplit, Thorough, SplitShape, NewTasks, Unsplittable, Divided, Distinct,
        Members, WeightedGraph.SymmetricWeights;
      PopMakesLighter(task, rest, maxLevels);
      levels, queue := levels0, rest;
      if task.level >= maxLevels || |task.entityIDs| < minCommunitySize {
        DroppingKeepsThorough(Bounds(), levels0, nodes, task, rest);
        return;
      }
      var subs := Split(task.entityIDs, task.level);
      if |subs| <= 1 {
        DroppingKeepsThorough(Bounds(), levels0, nodes, task, rest);
        return;
      }
      PartsAreNonEmpty(subs, Members(task.entityIDs));
      levels, queue := AddSplit(levels0, task, subs, minCommunitySize, maxLevels, rest);
      AfterSplitShape(levels0, task, subs);
      SplitKeepsThorough(Bounds(), levels0, nodes, task, rest, subs, levels);
      AfterSplitting(levels0, nodes, task, rest, subs, levels, minCommunitySize, maxLevels);
    }
  }

  /**
   What thoroughness means for the nodes: a set with weight inside that is large enough and not too
   deep is either divided or connected, so a disconnected one is always divided.
   */
  lemma DisconnectedIsDivided(adj: map<Id, map<Id, real>>, lim: Limits, levels: Levels, nodes: set<Id>)
    requires lim.whole == Unsplittable(adj) && Thorough(lim, levels, nodes, [])
    ensures |nodes| >= lim.minSize && lim.maxLevels >= 1 && InnerWeight(adj, nodes) != 0.0 && !ConnectedIn(adj, nodes) ==> levels != []
    ensures forall l: nat, i: nat :: l + 1 < lim.maxLevels && l < |levels| && i < |levels[l]| ==>
              var ids := levels[l][i].entityIDs;
              |ids| >= lim.minSize && InnerWeight(adj, Members(ids)) != 0.0 && !ConnectedIn(adj, Members(ids))
              ==> levels[l][i].children != []
  {
    hide InnerWeight, ConnectedIn;
    forall l: nat, i: nat | l + 1 < lim.maxLevels && l < |levels| && i < |levels[l]|
      ensures var ids := levels[l][i].entityIDs;
        |ids| >= lim.minSize && InnerWeight(adj, Members(ids)) != 0.0 && !ConnectedIn(adj, Members(ids))
        ==> levels[l][i].children != []
    {
      assert Handled(lim, levels, [], l, i);
    }
  }

  lemma AfterSplitting(levels: Levels, nodes: set<Id>, task: SplitTask, rest: seq<SplitTask>, subs: seq<seq<Id>>,
                       r: Levels, minSize: int, maxLevels: int)
    requires Nested(levels, nodes) && TaskOk(levels, nodes, task) && QueueOk(levels, nodes, rest)
    requires forall a :: 0 <= a < |rest| ==> rest[a].level != task.level || rest[a].parentIdx != task.parentIdx
    requires task.level < maxLevels && IsPartition(subs, Members(task.entityIDs)) && |subs| >= 2
    requires r == AfterSplit(levels, task, subs)
    ensures var queue := rest + NewTasks(subs, task, |LevelOrEmpty(levels, task.level)|, minSize, maxLevels);
      && Nested(r, nodes) && QueueOk(r, nodes, queue)
      && (|r| == |levels| || |r| == task.level + 1)
      && QueueWeight(queue, maxLevels) < QueueWeight([task] + rest, maxLevels)
  {
    AfterSplitShape(levels, task, subs);
    SplitKeepsNested(levels, nodes, task, subs, r);
    SplitKeepsQueue(levels, nodes, task, rest, subs, r, minSize, maxLevels);
    SplitMakesLighter(task, rest, subs, |LevelOrEmpty(levels, task.level)|, minSize, maxLevels);
  }

  lemma SubsetIsCovered(adj: map<Id, map<Id, real>>, g: WeightedGraph, ids: seq<Id>)
    requires IsSubgraph(adj, ids, g)
    ensures g.adj.Keys == Members(ids)
  {
  }

  /** A set of nodes that clustering leaves whole: connected inside, or without weight inside. */
  ghost function Unsplittable(adj: map<Id, map<Id, real>>): set<Id> -> bool {
    nodes => ConnectedIn(adj, nodes) || InnerWeight(adj, nodes) == 0.0
  }

  lemma WholeIsUnsplittable(adj: map<Id, map<Id, real>>, g: WeightedGraph, ids: seq<Id>)
    requires IsSubgraph(adj, ids, g) && Distinct(ids) && |ids| > 0 && (|ids| == 1 || g.total == 0.0)
    ensures Unsplittable(adj)(Members(ids))
  {
    hide IsSubgraph, InnerWeight;
    SubgraphTotal(adj, ids, g);
    if |ids| == 1 {
      forall u: Id, v: Id | u in Members(ids) && v in Members(ids)
        ensures Reachable(InnerEdges(adj, Members(ids)), {u}, v)
      {
        ReachStart(InnerEdges(adj, Members(ids)), {u}, v);
      }
    }
  }

  /** A clustering that puts all nodes together found them connected. */
  lemma OneListIsUnsplittable(adj: map<Id, map<Id, real>>, g: WeightedGraph, ids: seq<Id>, lists: seq<seq<Id>>)
    requires IsSubgraph(adj, ids, g) && IsPartition(lists, Members(ids)) && WithinComponents(g, lists)
    ensures |lists| <= 1 ==> Unsplittable(adj)(Members(ids))
  {
    hide IsSubgraph, InnerWeight;
    SubgraphEdges(adj, ids, g);
    if |lists| <= 1 {
      forall u: Id, v: Id | u in Members(ids) && v in Members(ids)
        ensures Reachable(InnerEdges(adj, Members(ids)), {u}, v)
      {
        assert Together(lists, u, u) && Together(lists, v, v);
        assert u in lists[0] && v in lists[0];
        assert Together(lists, u, v);
      }
    }
  }

  /** Without edges, or with one node, a single community is as good as any other partition, and settled. */
  lemma WholeIsGood(adj: map<Id, map<Id, real>>, g: WeightedGraph, ids: seq<Id>, iterations: int, minDelta: real)
    requires IsSubgraph(adj, ids, g) && Distinct(ids) && |ids| > 0 && (|ids| == 1 || g.total == 0.0)
    ensures GoodClustering(g, [ids], iterations, minDelta) && IsPartition([ids], Members(ids))
  {
    var part: map<Id, Comm> := map v: Id | v in g.adj.Keys :: 0;
    SubsetIsCovered(adj, g, ids);
    WholeIsPartition(ids);
    OneClass(ids, part);
    WholeIsMoved(g, ids, part, iterations, minDelta);
    hide *;
    GoodBecause(g, [ids], part, iterations, minDelta);
  }

  lemma WholeIsMoved(g: WeightedGraph, ids: seq<Id>, part: map<Id, Comm>, iterations: int, minDelta: real)
    requires part.Keys == g.adj.Keys == Members(ids) && (forall v: Id :: v in part ==> part[v] == 0)
    requires |ids| == 1 || g.total == 0.0
    ensures WellMoved(g, part, iterations, minDelta)
  {
    var apart := Apart(g.adj.Keys);
    assert AllSettled(g, part, minDelta) by {
      assert forall x: Id, y: Id :: x in part && y in part ==> part[y] == part[x];
    }
    if |ids| == 1 {
      assert ids == [ids[0]];
      QualityOfSamePartition(g, part, apart);
      SettledOfSamePartition(g, apart, part, minDelta);
    } else {
      NoEdgesNoQuality(g, part);
      NoEdgesNoQuality(g, apart);
      NoEdgesSettled(g, apart, minDelta);
    }
  }

  lemma NoEdgesSettled(g: WeightedGraph, part: map<Id, Comm>, minDelta: real)
    requires g.total == 0.0
    ensures AllSettled(g, part, minDelta)
  {
    hide Gain;
    forall x: Id, c: Comm | x in part && x in g.adj ensures Gain(g, part, x, c) == 0.0 {
      GainWithoutWeight(g, part, x, c);
    }
  }

  lemma OneClass(ids: seq<Id>, part: map<Id, Comm>)
    requires part.Keys == Members(ids) && forall v: Id :: v in part ==> part[v] == 0
    ensures Classes([ids], part)
  {
    forall u: Id, v: Id | u in part && v in part ensures Together([ids], u, v) {
      assert u in [ids][0] && v in [ids][0];
    }
  }

  lemma NoEdgesNoQuality(g: WeightedGraph, part: map<Id, Comm>)
    requires g.total == 0.0
    ensures Quality(g, part) == 0.0
  {
    forall i: Id ensures Row(g, part, i, part.Keys) == 0.0 {
      SumZero(part.Keys, RowTerms(g, part, i));
    }
    SumZero(part.Keys, Rows(g, part, part.Keys));
  }

  lemma WholeIsPartition(ids: seq<Id>)
    requires Distinct(ids) && |ids| > 0
    ensures IsPartition([ids], Members(ids))
  {
    forall v: Id
      ensures v in Members(ids) <==> Together([ids], v, v)
    {
      if v in Members(ids) {
        assert v in [ids][0];
      }
    }
  }
}
