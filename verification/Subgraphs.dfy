/**
 The subgraph a clustering of some of the nodes works on: rows cut down to the
 subset, strengths recomputed as row sums, total as half their sum.
 */
module Subgraphs {
  import opened Collections
  import opened Sums
  import opened Modularity
  import opened LocalMoving
  import opened Walks

  function CutRow(adj: map<Id, map<Id, real>>, nodes: set<Id>, x: Id): map<Id, real> {
    if x in adj then map y | y in adj[x] && y in nodes :: adj[x][y] else map[]
  }

  ghost function RowWeights(row: map<Id, real>): Id -> real {
    (y: Id) => if y in row then row[y] else 0.0
  }

  ghost function RowSum(row: map<Id, real>): real {
    Sum(row.Keys, RowWeights(row))
  }

  ghost function CutRowSums(adj: map<Id, map<Id, real>>, nodes: set<Id>): Id -> real {
    (x: Id) => RowSum(CutRow(adj, nodes, x))
  }

  ghost predicate IsSubgraph(adj: map<Id, map<Id, real>>, entityIDs: seq<Id>, sub: WeightedGraph) {
    var nodes := set e | e in entityIDs;
    && sub.adj.Keys == nodes == sub.strength.Keys
    && (forall x: Id :: x in nodes ==> sub.adj[x] == CutRow(adj, nodes, x))
    && (forall x: Id :: x in nodes ==> sub.strength[x] == RowSum(CutRow(adj, nodes, x)))
    && 2.0 * sub.total == SeqSum(entityIDs, CutRowSums(adj, nodes))
  }

  lemma RowSumGrows(row: map<Id, real>, y: Id, w: real)
    requires y !in row
    ensures RowSum(row[y := w]) == RowSum(row) + w
  {
    var row' := row[y := w];
    SumRemove(row'.Keys, y, RowWeights(row'));
    assert row'.Keys - {y} == row.Keys;
    SumCongruent(row.Keys, RowWeights(row'), RowWeights(row));
  }

  /** Collects one row of the subgraph, its sum, and half of it for the total. */
  method CollectRow(adj: map<Id, map<Id, real>>, nodes: set<Id>, eid: Id, total0: real)
    returns (row: map<Id, real>, strength: real, total: real)
    ensures row == CutRow(adj, nodes, eid) && strength == RowSum(row)
    ensures 2.0 * total == 2.0 * total0 + strength
  {
    row, strength, total := map[], 0.0, total0;
    if eid in adj {
      var rest := adj[eid].Keys;
      while rest != {}
        invariant rest <= adj[eid].Keys
        invariant forall y: Id :: y in row <==> y in adj[eid] && y in nodes && y !in rest
        invariant forall y: Id :: y in row ==> row[y] == adj[eid][y]
        invariant strength == RowSum(row)
        invariant 2.0 * total == 2.0 * total0 + strength
        decreases rest
      {
        var neighbor: Id :| neighbor in rest;
        rest := rest - {neighbor};
        if neighbor in nodes {
          var weight := adj[eid][neighbor];
          RowSumGrows(row, neighbor, weight);
          row := row[neighbor := weight];
          strength := strength + weight;
          total := total + weight / 2.0;
        }
      }
    }
  }

  /** The rows, their sums and half their total, for the first k of the list. */
  ghost predicate CutSoFar(adj: map<Id, map<Id, real>>, nodes: set<Id>, ids: seq<Id>, k: nat,
                           subAdj: map<Id, map<Id, real>>, subStrength: map<Id, real>, subTotal: real)
    requires k <= |ids|
  {
    && (forall v: Id :: v in subAdj <==> v in ids[..k])
    && (forall v: Id :: v in subStrength <==> v in ids[..k])
    && (forall v: Id :: v in subAdj ==>
          subAdj[v] == CutRow(adj, nodes, v) && subStrength[v] == RowSum(CutRow(adj, nodes, v)))
    && 2.0 * subTotal == SeqSum(ids[..k], CutRowSums(adj, nodes))
  }

  lemma CutNone(adj: map<Id, map<Id, real>>, nodes: set<Id>, ids: seq<Id>)
    ensures CutSoFar(adj, nodes, ids, 0, map[], map[], 0.0)
  {
  }

  lemma CutOneMore(adj: map<Id, map<Id, real>>, nodes: set<Id>, ids: seq<Id>, k: nat, subAdj: map<Id, map<Id, real>>,
                   subStrength: map<Id, real>, total: real, row: map<Id, real>, strength: real, newTotal: real)
    requires k < |ids| && CutSoFar(adj, nodes, ids, k, subAdj, subStrength, total)
    requires row == CutRow(adj, nodes, ids[k]) && strength == RowSum(row) && 2.0 * newTotal == 2.0 * total + strength
    ensures CutSoFar(adj, nodes, ids, k + 1, subAdj[ids[k] := row], subStrength[ids[k] := strength], newTotal)
  {
    hide RowSum, CutRow, SeqSum;
    SeqSumSnoc(ids, k, CutRowSums(adj, nodes));
  }

  lemma CutAll(adj: map<Id, map<Id, real>>, ids: seq<Id>, sub: WeightedGraph)
    requires CutSoFar(adj, (set e | e in ids), ids, |ids|, sub.adj, sub.strength, sub.total)
    ensures IsSubgraph(adj, ids, sub)
  {
    hide RowSum, CutRow, SeqSum;
    assert ids[..|ids|] == ids;
  }

  method BuildSubgraph(adj: map<Id, map<Id, real>>, entityIDs: seq<Id>, resolution: real) returns (sub: WeightedGraph)
    requires Distinct(entityIDs)
    ensures IsSubgraph(adj, entityIDs, sub) && sub.resolution == resolution
  {
    hide CutSoFar;
    var nodes := set e | e in entityIDs;
    var subAdj: map<Id, map<Id, real>>, subStrength: map<Id, real>, subTotal := map[], map[], 0.0;
    CutNone(adj, nodes, entityIDs);
    for k := 0 to |entityIDs|
      invariant CutSoFar(adj, nodes, entityIDs, k, subAdj, subStrength, subTotal)
    {
      ghost var total := subTotal;
      var row, strength;
      row, strength, subTotal := CollectRow(adj, nodes, entityIDs[k], subTotal);
      CutOneMore(adj, nodes, entityIDs, k, subAdj, subStrength, total, row, strength, subTotal);
      subAdj := subAdj[entityIDs[k] := row];
      subStrength := subStrength[entityIDs[k] := strength];
    }
    sub := WeightedGraph(subAdj, subStrength, subTotal, resolution);
    CutAll(adj, entityIDs, sub);
  }

  lemma SubgraphWeight(g: WeightedGraph, entityIDs: seq<Id>, sub: WeightedGraph, i: Id, j: Id)
    requires IsSubgraph(g.adj, entityIDs, sub)
    ensures sub.Weight(i, j) == if i in entityIDs && j in entityIDs then g.Weight(i, j) else 0.0
  {
  }

  // ---------------------------------------------------------------- what cannot be split

  /** Links inside a set of nodes, both ways. */
  ghost function InnerEdges(adj: map<Id, map<Id, real>>, nodes: set<Id>): Edges {
    set x: Id, y: Id | x in nodes && y in nodes && ((x in adj && y in adj[x]) || (y in adj && x in adj[y])) :: (x, y)
  }

  ghost predicate ConnectedIn(adj: map<Id, map<Id, real>>, nodes: set<Id>) {
    forall u: Id, v: Id :: u in nodes && v in nodes ==> Reachable(InnerEdges(adj, nodes), {u}, v)
  }

  /** Weight of the links inside the set, each seen from both ends. */
  ghost function InnerWeight(adj: map<Id, map<Id, real>>, nodes: set<Id>): real {
    Sum(nodes, CutRowSums(adj, nodes))
  }

  lemma SubgraphEdges(adj: map<Id, map<Id, real>>, ids: seq<Id>, sub: WeightedGraph)
    requires IsSubgraph(adj, ids, sub)
    ensures EdgesOf(sub) == InnerEdges(adj, Members(ids))
  {
    hide RowSum, SeqSum;
  }

  lemma SubgraphTotal(adj: map<Id, map<Id, real>>, ids: seq<Id>, sub: WeightedGraph)
    requires IsSubgraph(adj, ids, sub) && Distinct(ids)
    ensures 2.0 * sub.total == InnerWeight(adj, Members(ids))
  {
    hide RowSum;
    assert Members(ids) == set e | e in ids;
    SeqSumIsSum(ids, Members(ids), CutRowSums(adj, Members(ids)), CutRowSums(adj, Members(ids)));
  }

  /** Cutting a symmetric graph down to a subset leaves it symmetric and closed. */
  lemma SubgraphIsClosed(g: WeightedGraph, entityIDs: seq<Id>, sub: WeightedGraph)
    requires g.SymmetricWeights() && IsSubgraph(g.adj, entityIDs, sub)
    ensures ClosedGraph(sub)
  {
    forall i: Id, j: Id
      ensures sub.Weight(i, j) == sub.Weight(j, i)
    {
      SubgraphWeight(g, entityIDs, sub, i, j);
      SubgraphWeight(g, entityIDs, sub, j, i);
    }
  }
}
