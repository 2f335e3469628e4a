/**
 The local moving phase of the clustering: a partition kept both as node-to-community
 and as community-to-nodes, improved one node at a time.
 */
module LocalMoving {
  import opened Collections
  import opened Sums
  import opened Modularity
  import opened Walks

  /** Adjacency rows mention only nodes of the graph. */
  ghost predicate ClosedGraph(g: WeightedGraph) {
    && g.SymmetricWeights()
    && forall x: Id, y: Id :: x in g.adj && y in g.adj[x] ==> y in g.adj
  }

  /** The two views of the partition agree. */
  ghost predicate Agree(nodeToComm: map<Id, Comm>, commNodes: map<Comm, seq<Id>>) {
    && (forall v: Id :: v in nodeToComm ==> nodeToComm[v] in commNodes)
    && (forall c: Comm :: c in commNodes ==> Lists(nodeToComm, c, commNodes[c]))
  }

  /** Communities `x` may move to: its own and those of its neighbours. */
  function NeighborCommunities(g: WeightedGraph, part: map<Id, Comm>, x: Id): set<Comm>
    requires x in part && x in g.adj
  {
    {part[x]} + set y | y in g.adj[x] && y in part :: part[y]
  }

  ghost predicate Singletons(part: map<Id, Comm>) {
    forall u: Id, v: Id :: u in part && v in part && part[u] == part[v] ==> u == v
  }

  /** Joining the community of no neighbour gains more than the threshold. */
  ghost predicate Settled(g: WeightedGraph, part: map<Id, Comm>, minDelta: real, x: Id)
    requires x in part && x in g.adj
  {
    forall y: Id :: y in g.adj[x] && y in part && part[y] != part[x] ==>
                      Gain(g, part, x, part[y]) <= 0.0 || Gain(g, part, x, part[y]) <= minDelta
  }

  ghost predicate AllSettled(g: WeightedGraph, part: map<Id, Comm>, minDelta: real) {
    forall x: Id :: x in part && x in g.adj ==> Settled(g, part, minDelta, x)
  }

  /** What a move must gain to be made: more than this. */
  function Threshold(minDelta: real): real {
    if minDelta > 0.0 then minDelta else 0.0
  }

  /** Quality after so many passes each of which moved some node. */
  ghost predicate Rose(before: real, after: real, minDelta: real, passes: int) {
    if passes <= 0 then after == before else after > before + 2.0 * Threshold(minDelta) * (passes as real)
  }

  /** Nodes that a row of either names, both ways. */
  ghost function EdgesOf(g: WeightedGraph): Edges {
    set x: Id, y: Id | x in g.adj && y in g.adj && (y in g.adj[x] || x in g.adj[y]) :: (x, y)
  }

  /** No community reaches over from one component of the graph to another. */
  ghost predicate Componentwise(g: WeightedGraph, part: map<Id, Comm>) {
    forall u: Id, v: Id :: u in part && v in part && part[u] == part[v] ==> Reachable(EdgesOf(g), {u}, v)
  }

  lemma SingletonsComponentwise(g: WeightedGraph, part: map<Id, Comm>)
    requires Singletons(part)
    ensures Componentwise(g, part)
  {
    forall u: Id, v: Id | u in part && v in part && part[u] == part[v] ensures Reachable(EdgesOf(g), {u}, v) {
      ReachStart(EdgesOf(g), {u}, v);
    }
  }

  lemma NothingBetter(g: WeightedGraph, part: map<Id, Comm>, minDelta: real, x: Id, bestComm: Comm, bestDelta: real)
    requires x in part && x in g.adj && (bestDelta <= minDelta || bestComm == part[x])
    requires bestComm == part[x] ==> bestDelta == 0.0
    requires forall c: Comm :: c in NeighborCommunities(g, part, x) && c != part[x] ==> Gain(g, part, x, c) <= bestDelta
    ensures Settled(g, part, minDelta, x)
  {
    hide Gain;
    forall y: Id | y in g.adj[x] && y in part && part[y] != part[x] ensures Gain(g, part, x, part[y]) <= bestDelta {
      assert part[y] in NeighborCommunities(g, part, x);
    }
  }

  /** Joining a neighbour's community stays within the component. */
  lemma MoveStaysComponentwise(g: WeightedGraph, part: map<Id, Comm>, x: Id, c: Comm)
    requires ClosedGraph(g) && part.Keys == g.adj.Keys && x in part && Componentwise(g, part)
    requires c in NeighborCommunities(g, part, x)
    ensures Componentwise(g, part[x := c])
  {
    if c != part[x] {
      var y: Id :| y in g.adj[x] && y in part && part[y] == c;
      var edges := EdgesOf(g);
      assert (x, y) in edges && Symmetric(edges);
      ReachStart(edges, {x}, x);
      ReachStep(edges, {x}, x, y);
      forall u: Id, v: Id | u in part && v in part && part[x := c][u] == part[x := c][v] ensures Reachable(edges, {u}, v) {
        if u == x && v == x {
        } else if u == x {
          ReachCompose(edges, {x}, y, v);
        } else if v == x {
          ReachCompose(edges, {x}, y, u);
          ReachReverse(edges, x, u);
        }
      }
    }
  }

  /** The gain of joining a node's community does not depend on how communities are numbered. */
  lemma GainOfSamePartition(g: WeightedGraph, part: map<Id, Comm>, part': map<Id, Comm>, x: Id, y: Id)
    requires part.Keys == part'.Keys && x in part && y in part
    requires forall i: Id, j: Id :: i in part && j in part ==> (part[i] == part[j] <==> part'[i] == part'[j])
    ensures Gain(g, part, x, part[y]) == Gain(g, part', x, part'[y])
  {
    SumCongruent(part.Keys - {x}, Ties(g, part, x, part[y]), Ties(g, part', x, part'[y]));
    SumCongruent(part.Keys - {x}, Ties(g, part, x, part[x]), Ties(g, part', x, part'[x]));
  }

  lemma SettledOfSamePartition(g: WeightedGraph, part: map<Id, Comm>, part': map<Id, Comm>, minDelta: real)
    requires part.Keys == part'.Keys == g.adj.Keys && AllSettled(g, part', minDelta)
    requires forall i: Id, j: Id :: i in part && j in part ==> (part[i] == part[j] <==> part'[i] == part'[j])
    ensures AllSettled(g, part, minDelta)
  {
    hide Gain;
    forall x: Id, y: Id | x in part && y in g.adj[x] && y in part && part[y] != part[x]
      ensures Gain(g, part, x, part[y]) <= 0.0 || Gain(g, part, x, part[y]) <= minDelta
    {
      assert Settled(g, part', minDelta, x);
      GainOfSamePartition(g, part, part', x, y);
    }
  }

  /** Some order of a set's members, as map iteration followed by a shuffle gives. */
  method AnyOrder(s: set<Id>) returns (order: seq<Id>)
    ensures Distinct(order) && forall v: Id :: v in order <==> v in s
  {
    order := [];
    var rest := s;
    while rest != {}
      invariant rest <= s && Distinct(order)
      invariant forall v: Id :: v in order <==> v in s && v !in rest
      decreases rest
    {
      var v: Id :| v in rest;
      order := order + [v];
      rest := rest - {v};
    }
  }

  method InitializeCommunities(order: seq<Id>) returns (nodeToComm: map<Id, Comm>, commNodes: map<Comm, seq<Id>>)
    requires Distinct(order)
    ensures forall v: Id :: v in nodeToComm <==> v in order
    ensures Agree(nodeToComm, commNodes) && Singletons(nodeToComm)
  {
    nodeToComm, commNodes := map[], map[];
    for commID := 0 to |order|
      invariant forall v: Id :: v in nodeToComm <==> v in order[..commID]
      invariant forall i :: 0 <= i < commID ==> order[i] in nodeToComm && nodeToComm[order[i]] == i
      invariant forall c: Comm :: c in commNodes <==> c < commID
      invariant forall c: Comm :: c in commNodes ==> commNodes[c] == [order[c]]
    {
      nodeToComm := nodeToComm[order[commID] := commID];
      commNodes := commNodes[commID := [order[commID]]];
    }
  }

  method IndexOf(s: seq<Id>, x: Id) returns (i: nat)
    requires x in s
    ensures i < |s| && s[i] == x
  {
    i := 0;
    while s[i] != x
      invariant i < |s| && x in s[i..]
      decreases |s| - i
    {
      i := i + 1;
    }
  }

  class Partition {
    const graph: WeightedGraph
    const minDelta: real
    var nodeToComm: map<Id, Comm>
    var commNodes: map<Comm, seq<Id>>

    ghost predicate Valid()
      reads this
    {
      ClosedGraph(graph) && nodeToComm.Keys == graph.adj.Keys && Agree(nodeToComm, commNodes)
    }

    /** Puts each node in a community of its own. */
    constructor (graph: WeightedGraph, minDelta: real)
      requires ClosedGraph(graph)
      ensures this.graph == graph && this.minDelta == minDelta
      ensures Valid() && Singletons(nodeToComm)
    {
      this.graph := graph;
      this.minDelta := minDelta;
      var order := AnyOrder(graph.adj.Keys);
      var part, comms := InitializeCommunities(order);
      nodeToComm := part;
      commNodes := comms;
    }

    /** The gain formula over the member lists is the exact gain of the move. */
    method ModularityGain(nodeID: Id, oldComm: Comm, newComm: Comm) returns (gain: real)
      requires Valid() && nodeID in nodeToComm && nodeToComm[nodeID] == oldComm
      requires newComm in commNodes && newComm != oldComm
      ensures gain == Gain(graph, nodeToComm, nodeID, newComm)
    {
      if graph.total == 0.0 {
        GainWithoutWeight(graph, nodeToComm, nodeID, newComm);
        return 0.0;
      }
      var kiIn := SumLinks(nodeID, commNodes[newComm]);
      var kiOut := SumLinks(nodeID, commNodes[oldComm]);
      var sigmaIn := SumStrengths(nodeID, commNodes[newComm]);
      var sigmaOut := SumStrengths(nodeID, commNodes[oldComm]);
      gain := Combine(graph, nodeID, kiIn - kiOut, sigmaIn - sigmaOut);
      GainFromLists(graph, nodeToComm, nodeID, newComm, commNodes[oldComm], commNodes[newComm]);
    }

    /** Weight from `nodeID` to the listed nodes, itself excepted. */
    method SumLinks(nodeID: Id, members: seq<Id>) returns (sum: real)
      ensures sum == SeqSum(members, LinkTerms(graph, nodeID))
    {
      sum := 0.0;
      for k := 0 to |members|
        invariant sum == SeqSum(members[..k], LinkTerms(graph, nodeID))
      {
        SeqSumSnoc(members, k, LinkTerms(graph, nodeID));
        if members[k] != nodeID {
          sum := sum + graph.Weight(nodeID, members[k]);
        }
      }
      assert members[..|members|] == members;
    }

    /** Strength of the listed nodes, `nodeID` excepted. */
    method SumStrengths(nodeID: Id, members: seq<Id>) returns (sum: real)
      ensures sum == SeqSum(members, StrengthTerms(graph, nodeID))
    {
      sum := 0.0;
      for k := 0 to |members|
        invariant sum == SeqSum(members[..k], StrengthTerms(graph, nodeID))
      {
        SeqSumSnoc(members, k, StrengthTerms(graph, nodeID));
        if members[k] != nodeID {
          sum := sum + graph.Strength(members[k]);
        }
      }
      assert members[..|members|] == members;
    }

    /** Moves one node; both views of the partition follow. */
    method MoveNode(nodeID: Id, oldComm: Comm, newComm: Comm)
      requires Valid() && nodeID in nodeToComm && nodeToComm[nodeID] == oldComm
      requires newComm in commNodes && newComm != oldComm
      modifies this
      ensures Valid() && nodeToComm == old(nodeToComm)[nodeID := newComm]
      ensures commNodes.Keys == old(commNodes.Keys)
      ensures Quality(graph, nodeToComm) ==
                old(Quality(graph, nodeToComm)) + 2.0 * old(Gain(graph, nodeToComm, nodeID, newComm))
    {
      var oldNodes := commNodes[oldComm];
      var i := IndexOf(oldNodes, nodeID);
      var nodes := commNodes[oldComm := oldNodes[..i] + oldNodes[i + 1..]][newComm := commNodes[newComm] + [nodeID]];
      MoveEffect(graph, nodeToComm, commNodes, nodeID, i, newComm, nodes);
      commNodes := nodes;
      nodeToComm := nodeToComm[nodeID := newComm];
    }

    /** The community within reach that gains most, or the present one when none gains. */
    method BestMove(nodeID: Id) returns (bestComm: Comm, bestDelta: real)
      requires Valid() && nodeID in nodeToComm
      ensures bestComm in commNodes && bestDelta >= 0.0
      ensures bestComm in NeighborCommunities(graph, nodeToComm, nodeID)
      ensures bestComm != nodeToComm[nodeID] ==>
                bestDelta > 0.0 && bestDelta == Gain(graph, nodeToComm, nodeID, bestComm)
      ensures bestComm == nodeToComm[nodeID] ==> bestDelta == 0.0
      ensures forall c: Comm :: c in NeighborCommunities(graph, nodeToComm, nodeID) && c != nodeToComm[nodeID] ==>
                                  Gain(graph, nodeToComm, nodeID, c) <= bestDelta
    {
      var currentComm := nodeToComm[nodeID];
      var neighborComms := NeighborCommunities(graph, nodeToComm, nodeID);
      bestComm, bestDelta := currentComm, 0.0;
      var rest := neighborComms;
      while rest != {}
        invariant rest <= neighborComms
        invariant bestComm in commNodes && bestComm in neighborComms && bestDelta >= 0.0
        invariant bestComm != currentComm ==> bestDelta > 0.0 && bestDelta == Gain(graph, nodeToComm, nodeID, bestComm)
        invariant bestComm == currentComm ==> bestDelta == 0.0
        invariant forall c: Comm :: c in neighborComms && c !in rest && c != currentComm ==>
                                      Gain(graph, nodeToComm, nodeID, c) <= bestDelta
        decreases rest
      {
        var comm: Comm :| comm in rest;
        rest := rest - {comm};
        if comm != currentComm {
          var delta := ModularityGain(nodeID, currentComm, comm);
          if delta > bestDelta {
            bestDelta := delta;
            bestComm := comm;
          }
        }
      }
    }

    /** Moves a node to its best community if that gains more than the threshold. */
    method TryMove(nodeID: Id) returns (moved: bool)
      requires Valid() && nodeID in nodeToComm
      modifies this
      ensures Valid() && (old(Componentwise(graph, nodeToComm)) ==> Componentwise(graph, nodeToComm))
      ensures moved ==> Quality(graph, nodeToComm) > old(Quality(graph, nodeToComm)) + 2.0 * Threshold(minDelta)
      ensures !moved ==> nodeToComm == old(nodeToComm) && commNodes == old(commNodes)
      ensures !moved ==> Settled(graph, nodeToComm, minDelta, nodeID)
    {
      hide Componentwise, Agree, ClosedGraph, Quality, Gain, Settled, NeighborCommunities;
      var currentComm := nodeToComm[nodeID];
      var bestComm, bestDelta := BestMove(nodeID);
      moved := bestDelta > minDelta && bestComm != currentComm;
      if moved {
        if Componentwise(graph, nodeToComm) {
          MoveStaysComponentwise(graph, nodeToComm, nodeID, bestComm);
        }
        MoveNode(nodeID, currentComm, bestComm);
      } else {
        NothingBetter(graph, nodeToComm, minDelta, nodeID, bestComm, bestDelta);
      }
    }

    /** One pass over the given nodes. */
    method Pass(nodes: seq<Id>) returns (improved: bool)
      requires Valid() && forall i :: 0 <= i < |nodes| ==> nodes[i] in nodeToComm
      modifies this
      ensures Valid() && (old(Componentwise(graph, nodeToComm)) ==> Componentwise(graph, nodeToComm))
      ensures improved ==> Quality(graph, nodeToComm) > old(Quality(graph, nodeToComm)) + 2.0 * Threshold(minDelta)
      ensures !improved ==> nodeToComm == old(nodeToComm) && commNodes == old(commNodes)
      ensures improved || forall i :: 0 <= i < |nodes| ==> Settled(graph, nodeToComm, minDelta, nodes[i])
    {
      hide ClosedGraph, Agree, Quality, Settled, Componentwise;
      improved := false;
      for k := 0 to |nodes|
        invariant Valid() && (old(Componentwise(graph, nodeToComm)) ==> Componentwise(graph, nodeToComm))
        invariant improved ==> Quality(graph, nodeToComm) > old(Quality(graph, nodeToComm)) + 2.0 * Threshold(minDelta)
        invariant !improved ==> nodeToComm == old(nodeToComm) && commNodes == old(commNodes)
        invariant improved || forall i :: 0 <= i < k ==> Settled(graph, nodeToComm, minDelta, nodes[i])
      {
        var moved := TryMove(nodes[k]);
        improved := improved || moved;
      }
    }

    /** One pass over all nodes in some order. */
    method MoveNodes() returns (improved: bool)
      requires Valid()
      modifies this
      ensures Valid() && (old(Componentwise(graph, nodeToComm)) ==> Componentwise(graph, nodeToComm))
      ensures improved ==> Quality(graph, nodeToComm) > old(Quality(graph, nodeToComm)) + 2.0 * Threshold(minDelta)
      ensures !improved ==> nodeToComm == old(nodeToComm) && commNodes == old(commNodes)
      ensures !improved ==> AllSettled(graph, nodeToComm, minDelta)
    {
      hide ClosedGraph, Agree, Quality, Settled, Componentwise;
      var nodes := AnyOrder(graph.adj.Keys);
      improved := Pass(nodes);
    }

    /**
     Passes are repeated until one moves nothing, and then every node is settled, or until they
     are used up, and then each has gained more than the threshold.
     */
    method Run(iterations: int)
      requires Valid()
      modifies this
      ensures Valid() && (old(Componentwise(graph, nodeToComm)) ==> Componentwise(graph, nodeToComm))
      ensures AllSettled(graph, nodeToComm, minDelta)
        || Rose(old(Quality(graph, nodeToComm)), Quality(graph, nodeToComm), minDelta, iterations)
      ensures Quality(graph, nodeToComm) >= old(Quality(graph, nodeToComm))
      ensures Quality(graph, nodeToComm) == old(Quality(graph, nodeToComm)) ==> nodeToComm == old(nodeToComm)
      ensures iterations >= 1 && !old(AllSettled(graph, nodeToComm, minDelta)) ==>
        Quality(graph, nodeToComm) > old(Quality(graph, nodeToComm)) + 2.0 * Threshold(minDelta)
    {
      hide ClosedGraph, Agree, Quality, AllSettled, Componentwise;
      ghost var q0 := Quality(graph, nodeToComm);
      var iter := 0;
      while iter < iterations
        invariant Valid() && (old(Componentwise(graph, nodeToComm)) ==> Componentwise(graph, nodeToComm))
        invariant iter == 0 ==> nodeToComm == old(nodeToComm)
        invariant iter >= 0 && Rose(q0, Quality(graph, nodeToComm), minDelta, iter)
        invariant iter == 0 || iter <= iterations
      {
        ghost var q := Quality(graph, nodeToComm);
        var improved := MoveNodes();
        if !improved {
          OnceIsEnough(q0, q, minDelta, iter);
          return;
        }
        OneMorePass(q0, q, Quality(graph, nodeToComm), minDelta, iter);
        iter := iter + 1;
      }
      OnceIsEnough(q0, Quality(graph, nodeToComm), minDelta, iter);
    }

    /** The non-empty member lists: a partition of the nodes into the communities. */
    method Collect() returns (result: seq<seq<Id>>)
      requires Valid()
      ensures IsPartition(result, graph.adj.Keys)
      ensures forall u: Id, v: Id :: u in graph.adj && v in graph.adj ==>
                (nodeToComm[u] == nodeToComm[v] <==> Together(result, u, v))
    {
      hide Agree, Collecting, IsPartition;
      result := [];
      var rest := commNodes.Keys;
      CollectingNone(nodeToComm, commNodes);
      while rest != {}
        invariant rest <= commNodes.Keys && Collecting(nodeToComm, rest, result)
        decreases rest
      {
        var c: Comm :| c in rest;
        AgreeLists(nodeToComm, commNodes, c);
        CollectingOneMore(nodeToComm, rest, result, c, commNodes[c]);
        rest := rest - {c};
        if |commNodes[c]| > 0 {
          result := result + [commNodes[c]];
        }
      }
      CollectedAll(nodeToComm, result, graph.adj.Keys);
    }
  }

  lemma OneMorePass(q0: real, q: real, q': real, minDelta: real, iter: nat)
    requires Rose(q0, q, minDelta, iter) && q' > q + 2.0 * Threshold(minDelta)
    ensures Rose(q0, q', minDelta, iter + 1)
  {
    var t := 2.0 * Threshold(minDelta);
    assert t * ((iter + 1) as real) == t * (iter as real) + t;
  }

  lemma OnceIsEnough(q0: real, q: real, minDelta: real, iter: nat)
    requires Rose(q0, q, minDelta, iter)
    ensures q >= q0 && (iter >= 1 ==> q > q0 + 2.0 * Threshold(minDelta))
  {
    var t := 2.0 * Threshold(minDelta);
    if iter >= 1 {
      assert t * (iter as real) == t + t * ((iter - 1) as real);
      assert t * ((iter - 1) as real) >= 0.0;
    }
  }

  ghost predicate Listed(lists: seq<seq<Id>>, v: Id) {
    exists i :: 0 <= i < |lists| && v in lists[i]
  }

  function LeadComm(part: map<Id, Comm>, list: seq<Id>): int {
    if |list| > 0 && list[0] in part then part[list[0]] else -1
  }

  /** A non-empty list of all members of one community outside `rest`. */
  ghost predicate MemberList(part: map<Id, Comm>, rest: set<Comm>, list: seq<Id>) {
    |list| > 0 && list[0] in part && part[list[0]] !in rest && Lists(part, part[list[0]], list)
  }

  /** The lists so far are the member lists of the communities outside `rest` that have members. */
  ghost predicate Collecting(part: map<Id, Comm>, rest: set<Comm>, lists: seq<seq<Id>>) {
    && (forall i :: 0 <= i < |lists| ==> MemberList(part, rest, lists[i]))
    && (forall i, j :: 0 <= i < j < |lists| ==> LeadComm(part, lists[i]) != LeadComm(part, lists[j]))
    && (forall v: Id :: v in part && part[v] !in rest ==> Listed(lists, v))
  }

  lemma CollectingNone(part: map<Id, Comm>, commNodes: map<Comm, seq<Id>>)
    requires Agree(part, commNodes)
    ensures Collecting(part, commNodes.Keys, [])
  {
  }

  lemma AgreeLists(part: map<Id, Comm>, commNodes: map<Comm, seq<Id>>, c: Comm)
    requires Agree(part, commNodes) && c in commNodes
    ensures Lists(part, c, commNodes[c])
  {
  }

  lemma CollectingOneMore(part: map<Id, Comm>, rest: set<Comm>, lists: seq<seq<Id>>, c: Comm, list: seq<Id>)
    requires Lists(part, c, list) && Collecting(part, rest, lists) && c in rest
    ensures Collecting(part, rest - {c}, if |list| > 0 then lists + [list] else lists)
  {
    assert forall v: Id :: v in part && part[v] == c ==> v in list;
    hide MemberList, LeadComm, Lists, Listed;
    if |list| > 0 {
      MembersOneMore(part, rest, lists, c, list);
      SeparateOneMore(part, lists, c, list);
      ListedOneMore(part, rest, lists, c, list);
    } else {
      SameMembers(part, rest, lists, c);
    }
  }

  lemma SameMembers(part: map<Id, Comm>, rest: set<Comm>, lists: seq<seq<Id>>, c: Comm)
    requires forall i :: 0 <= i < |lists| ==> MemberList(part, rest, lists[i])
    ensures forall i :: 0 <= i < |lists| ==> MemberList(part, rest - {c}, lists[i])
  {
    hide Lists;
  }

  lemma MembersOneMore(part: map<Id, Comm>, rest: set<Comm>, lists: seq<seq<Id>>, c: Comm, list: seq<Id>)
    requires forall i :: 0 <= i < |lists| ==> MemberList(part, rest, lists[i])
    requires |list| > 0 && Lists(part, c, list) && c in rest
    ensures forall i :: 0 <= i < |lists| + 1 ==> MemberList(part, rest - {c}, (lists + [list])[i])
    ensures LeadComm(part, list) == c && forall i :: 0 <= i < |lists| ==> LeadComm(part, lists[i]) != c
  {
    assert list[0] in list;
    hide Lists;
    forall i | 0 <= i < |lists| + 1 ensures MemberList(part, rest - {c}, (lists + [list])[i]) {
      assert i < |lists| ==> MemberList(part, rest, lists[i]);
    }
    forall i | 0 <= i < |lists| ensures LeadComm(part, lists[i]) != c {
      assert MemberList(part, rest, lists[i]);
    }
  }

  lemma SeparateOneMore(part: map<Id, Comm>, lists: seq<seq<Id>>, c: Comm, list: seq<Id>)
    requires forall i, j :: 0 <= i < j < |lists| ==> LeadComm(part, lists[i]) != LeadComm(part, lists[j])
    requires LeadComm(part, list) == c && forall i :: 0 <= i < |lists| ==> LeadComm(part, lists[i]) != c
    ensures var more := lists + [list];
      forall i, j :: 0 <= i < j < |more| ==> LeadComm(part, more[i]) != LeadComm(part, more[j])
  {
    hide LeadComm;
  }

  lemma ListedOneMore(part: map<Id, Comm>, rest: set<Comm>, lists: seq<seq<Id>>, c: Comm, list: seq<Id>)
    requires forall v: Id :: v in part && part[v] !in rest ==> Listed(lists, v)
    requires forall v: Id :: v in part && part[v] == c ==> v in list
    ensures forall v: Id :: v in part && part[v] !in rest - {c} ==> Listed(lists + [list], v)
  {
    forall v: Id | v in part && part[v] !in rest - {c} ensures Listed(lists + [list], v) {
      if part[v] == c {
        assert v in (lists + [list])[|lists|];
      } else {
        var i :| 0 <= i < |lists| && v in lists[i];
        assert v in (lists + [list])[i];
      }
    }
  }

  /** Two nodes share a list exactly when they share a community. */
  lemma CollectedTogether(part: map<Id, Comm>, lists: seq<seq<Id>>, u: Id, v: Id)
    requires Collecting(part, {}, lists) && u in part && v in part
    ensures part[u] == part[v] <==> Together(lists, u, v)
  {
    hide LeadComm, Distinct;
    if part[u] == part[v] {
      assert Listed(lists, u);
      var i :| 0 <= i < |lists| && u in lists[i];
      assert MemberList(part, {}, lists[i]);
      assert v in lists[i];
    }
    if Together(lists, u, v) {
      var i :| 0 <= i < |lists| && u in lists[i] && v in lists[i];
      assert MemberList(part, {}, lists[i]);
    }
  }

  lemma CollectedApart(part: map<Id, Comm>, lists: seq<seq<Id>>, i: nat, j: nat)
    requires Collecting(part, {}, lists) && i < j < |lists|
    ensures forall v: Id :: v in lists[i] ==> v !in lists[j]
  {
    assert MemberList(part, {}, lists[i]) && MemberList(part, {}, lists[j]);
    assert LeadComm(part, lists[i]) != LeadComm(part, lists[j]);
    hide Collecting, Distinct;
  }

  lemma CollectedAll(part: map<Id, Comm>, lists: seq<seq<Id>>, nodes: set<Id>)
    requires Collecting(part, {}, lists) && part.Keys == nodes
    ensures IsPartition(lists, nodes)
    ensures forall u: Id, v: Id :: u in nodes && v in nodes ==> (part[u] == part[v] <==> Together(lists, u, v))
  {
    forall u: Id, v: Id | u in nodes && v in nodes ensures part[u] == part[v] <==> Together(lists, u, v) {
      CollectedTogether(part, lists, u, v);
    }
    forall i | 0 <= i < |lists| ensures |lists[i]| > 0 && Distinct(lists[i]) && forall v: Id :: v in lists[i] ==> v in nodes {
      assert MemberList(part, {}, lists[i]);
    }
    hide Collecting, Distinct;
    forall i: nat, j: nat | i < j < |lists| ensures forall v: Id :: v in lists[i] ==> v !in lists[j] {
      CollectedApart(part, lists, i, j);
    }
  }

  /** The gain, from the four sums the code forms over the two member lists. */
  lemma GainFromLists(g: WeightedGraph, part: map<Id, Comm>, x: Id, newComm: Comm, oldNodes: seq<Id>, newNodes: seq<Id>)
    requires x in part && g.total != 0.0
    requires Lists(part, part[x], oldNodes) && Lists(part, newComm, newNodes)
    ensures Gain(g, part, x, newComm) ==
              Combine(g, x, SeqSum(newNodes, LinkTerms(g, x)) - SeqSum(oldNodes, LinkTerms(g, x)),
                      SeqSum(newNodes, StrengthTerms(g, x)) - SeqSum(oldNodes, StrengthTerms(g, x)))
  {
    AttachmentFromLists(g, part, x, newComm, newNodes);
    AttachmentFromLists(g, part, x, part[x], oldNodes);
    CombineSubtracts(g, x, SeqSum(newNodes, LinkTerms(g, x)), SeqSum(oldNodes, LinkTerms(g, x)),
                     SeqSum(newNodes, StrengthTerms(g, x)), SeqSum(oldNodes, StrengthTerms(g, x)));
  }

  lemma GainWithoutWeight(g: WeightedGraph, part: map<Id, Comm>, x: Id, c: Comm)
    requires g.total == 0.0 && x in part
    ensures Gain(g, part, x, c) == 0.0
  {
    SumZero(part.Keys - {x}, Ties(g, part, x, c));
    SumZero(part.Keys - {x}, Ties(g, part, x, part[x]));
  }

  lemma CombineSubtracts(g: WeightedGraph, x: Id, a: real, a': real, b: real, b': real)
    requires g.total != 0.0
    ensures Combine(g, x, a - a', b - b') == Combine(g, x, a, b) - Combine(g, x, a', b')
  {
  }

  lemma MoveEffect(g: WeightedGraph, nodeToComm: map<Id, Comm>, commNodes: map<Comm, seq<Id>>, x: Id, i: nat, newComm: Comm,
                   moved: map<Comm, seq<Id>>)
    requires g.SymmetricWeights()
    requires Agree(nodeToComm, commNodes) && x in nodeToComm && newComm in commNodes && newComm != nodeToComm[x]
    requires i < |commNodes[nodeToComm[x]]| && commNodes[nodeToComm[x]][i] == x
    requires var oldNodes := commNodes[nodeToComm[x]];
      moved == commNodes[nodeToComm[x] := oldNodes[..i] + oldNodes[i + 1..]][newComm := commNodes[newComm] + [x]]
    ensures nodeToComm[x := newComm].Keys == nodeToComm.Keys && moved.Keys == commNodes.Keys
    ensures Agree(nodeToComm[x := newComm], moved)
    ensures Quality(g, nodeToComm[x := newComm]) == Quality(g, nodeToComm) + 2.0 * Gain(g, nodeToComm, x, newComm)
  {
    MoveKeepsAgreement(nodeToComm, commNodes, x, i, newComm);
    MoveChangesQuality(g, nodeToComm, x, newComm);
  }

  lemma MoveKeepsAgreement(nodeToComm: map<Id, Comm>, commNodes: map<Comm, seq<Id>>, x: Id, i: nat, newComm: Comm)
    requires Agree(nodeToComm, commNodes) && x in nodeToComm && newComm in commNodes && newComm != nodeToComm[x]
    requires i < |commNodes[nodeToComm[x]]| && commNodes[nodeToComm[x]][i] == x
    ensures var oldNodes := commNodes[nodeToComm[x]];
      Agree(nodeToComm[x := newComm],
            commNodes[nodeToComm[x] := oldNodes[..i] + oldNodes[i + 1..]][newComm := commNodes[newComm] + [x]])
  {
  }
}
