/**
 Building the weighted graph the clustering works on, from entities and
 relationships and from a subset of the nodes.
 */
module WeightedGraphs {
  import opened Collections
  import opened RelationGraph
  import opened Sums
  import opened Modularity
  import opened LocalMoving

  /** A zero weight counts as one. */
  function EdgeWeight(rel: Relationship): real {
    if rel.weight == 0.0 then 1.0 else rel.weight
  }

  predicate Joins(rel: Relationship, i: Id, j: Id) {
    (rel.sourceID == i && rel.targetID == j) || (rel.sourceID == j && rel.targetID == i)
  }

  /** Some relationship joins `i` and `j`. */
  ghost predicate Adjacent(rels: seq<Relationship>, i: Id, j: Id) {
    exists k :: 0 <= k < |rels| && Joins(rels[k], i, j)
  }

  /** The last relationship joining a pair decides its weight. */
  ghost function LatestWeight(rels: seq<Relationship>, i: Id, j: Id): real {
    if rels == [] then 0.0
    else if Joins(rels[|rels| - 1], i, j) then EdgeWeight(rels[|rels| - 1])
    else LatestWeight(rels[..|rels| - 1], i, j)
  }

  /** Every relationship counts towards the strength of its endpoints; a loop counts twice. */
  ghost function StrengthOf(rels: seq<Relationship>, v: Id): real {
    if rels == [] then 0.0
    else
      var rel := rels[|rels| - 1];
      StrengthOf(rels[..|rels| - 1], v)
      + (if rel.sourceID == v then EdgeWeight(rel) else 0.0)
      + (if rel.targetID == v then EdgeWeight(rel) else 0.0)
  }

  ghost function TotalOf(rels: seq<Relationship>): real {
    if rels == [] then 0.0 else TotalOf(rels[..|rels| - 1]) + EdgeWeight(rels[|rels| - 1])
  }

  ghost function NodesOf(entityIDs: seq<Id>, rels: seq<Relationship>): set<Id> {
    (set e | e in entityIDs) + (set r | r in rels :: r.sourceID) + (set r | r in rels :: r.targetID)
  }

  /** The maps hold exactly what the entities and the first relationships determine. */
  ghost predicate Built(entityIDs: seq<Id>, rels: seq<Relationship>, adj: map<Id, map<Id, real>>, strength: map<Id, real>, total: real) {
    && adj.Keys == NodesOf(entityIDs, rels) == strength.Keys
    && RowsBuilt(rels, adj) && StrengthsBuilt(rels, strength) && total == TotalOf(rels)
  }

  ghost predicate RowsBuilt(rels: seq<Relationship>, adj: map<Id, map<Id, real>>) {
    forall i: Id, j: Id :: i in adj ==>
      && (j in adj[i] <==> Adjacent(rels, i, j))
      && (j in adj[i] ==> adj[i][j] == LatestWeight(rels, i, j))
  }

  ghost predicate StrengthsBuilt(rels: seq<Relationship>, strength: map<Id, real>) {
    forall v: Id :: v in strength ==> strength[v] == StrengthOf(rels, v)
  }

  /** What entering one relationship does to the rows: both directions, nothing else. */
  ghost predicate RowsSet(rel: Relationship, adj0: map<Id, map<Id, real>>, adj: map<Id, map<Id, real>>) {
    && adj.Keys == adj0.Keys + {rel.sourceID, rel.targetID}
    && forall i: Id, j: Id :: i in adj ==>
         && (j in adj[i] <==> (i in adj0 && j in adj0[i]) || Joins(rel, i, j))
         && (j in adj[i] ==> adj[i][j] == if Joins(rel, i, j) then EdgeWeight(rel) else adj0[i][j])
  }

  ghost predicate StrengthsAdded(rel: Relationship, strength0: map<Id, real>, strength: map<Id, real>) {
    && strength.Keys == strength0.Keys + {rel.sourceID, rel.targetID}
    && forall v: Id :: v in strength ==>
         strength[v] == (if v in strength0 then strength0[v] else 0.0)
           + (if rel.sourceID == v then EdgeWeight(rel) else 0.0) + (if rel.targetID == v then EdgeWeight(rel) else 0.0)
  }

  method BuildGraph(entityIDs: seq<Id>, rels: seq<Relationship>)
    returns (adj: map<Id, map<Id, real>>, strength: map<Id, real>, total: real)
    ensures Built(entityIDs, rels, adj, strength, total)
  {
    adj, strength, total := map[], map[], 0.0;
    for k := 0 to |entityIDs|
      invariant forall v: Id :: v in adj <==> v in entityIDs[..k]
      invariant forall v: Id :: v in strength <==> v in entityIDs[..k]
      invariant forall v: Id :: v in adj ==> adj[v] == map[] && strength[v] == 0.0
    {
      adj := adj[entityIDs[k] := map[]];
      strength := strength[entityIDs[k] := 0.0];
    }
    for k := 0 to |rels|
      invariant Built(entityIDs, rels[..k], adj, strength, total)
    {
      adj, strength, total := AddRelationship(entityIDs, rels[..k], rels[k], adj, strength, total);
      assert rels[..k + 1] == rels[..k] + [rels[k]];
    }
    assert rels[..|rels|] == rels;
  }

  method AddRelationship(ghost entityIDs: seq<Id>, ghost rels: seq<Relationship>, rel: Relationship,
                         adj0: map<Id, map<Id, real>>, strength0: map<Id, real>, total0: real)
    returns (adj: map<Id, map<Id, real>>, strength: map<Id, real>, total: real)
    requires Built(entityIDs, rels, adj0, strength0, total0)
    ensures Built(entityIDs, rels + [rel], adj, strength, total)
  {
    adj := SetRows(rel, adj0);
    strength := AddStrengths(rel, strength0);
    total := total0 + EdgeWeight(rel);
    NodesGrow(entityIDs, rels, rel);
    RowsGrow(entityIDs, rels, rel, adj0, adj);
    StrengthsGrow(entityIDs, rels, rel, strength0, strength);
  }

  method SetRows(rel: Relationship, adj0: map<Id, map<Id, real>>) returns (adj: map<Id, map<Id, real>>)
    ensures RowsSet(rel, adj0, adj)
  {
    var row: map<Id, real>;
    adj := adj0;
    if rel.sourceID !in adj {
      adj := adj[rel.sourceID := map[]];
    }
    if rel.targetID !in adj {
      adj := adj[rel.targetID := map[]];
    }
    row := adj[rel.sourceID];
    row := row[rel.targetID := EdgeWeight(rel)];
    adj := adj[rel.sourceID := row];
    row := adj[rel.targetID];
    row := row[rel.sourceID := EdgeWeight(rel)];
    adj := adj[rel.targetID := row];
  }

  method AddStrengths(rel: Relationship, strength0: map<Id, real>) returns (strength: map<Id, real>)
    ensures StrengthsAdded(rel, strength0, strength)
  {
    strength := strength0;
    strength := strength[rel.sourceID := (if rel.sourceID in strength then strength[rel.sourceID] else 0.0) + EdgeWeight(rel)];
    strength := strength[rel.targetID := (if rel.targetID in strength then strength[rel.targetID] else 0.0) + EdgeWeight(rel)];
  }

  lemma NodesGrow(entityIDs: seq<Id>, rels: seq<Relationship>, rel: Relationship)
    ensures NodesOf(entityIDs, rels + [rel]) == NodesOf(entityIDs, rels) + {rel.sourceID, rel.targetID}
  {
  }

  lemma AdjacentGrows(rels: seq<Relationship>, rel: Relationship, i: Id, j: Id)
    ensures Adjacent(rels + [rel], i, j) <==> Adjacent(rels, i, j) || Joins(rel, i, j)
    ensures LatestWeight(rels + [rel], i, j) == if Joins(rel, i, j) then EdgeWeight(rel) else LatestWeight(rels, i, j)
    ensures StrengthOf(rels + [rel], i) == StrengthOf(rels, i)
              + (if rel.sourceID == i then EdgeWeight(rel) else 0.0) + (if rel.targetID == i then EdgeWeight(rel) else 0.0)
  {
  }

  lemma RowsGrow(entityIDs: seq<Id>, rels: seq<Relationship>, rel: Relationship,
                 adj0: map<Id, map<Id, real>>, adj: map<Id, map<Id, real>>)
    requires adj0.Keys == NodesOf(entityIDs, rels)
    requires RowsBuilt(rels, adj0) && RowsSet(rel, adj0, adj)
    ensures RowsBuilt(rels + [rel], adj)
  {
    forall i: Id, j: Id | i in adj
      ensures j in adj[i] <==> Adjacent(rels + [rel], i, j)
      ensures j in adj[i] ==> adj[i][j] == LatestWeight(rels + [rel], i, j)
    {
      AdjacentGrows(rels, rel, i, j);
    }
  }

  /** Nodes no relationship touches have no strength. */
  lemma {:induction false} UntouchedStrength(entityIDs: seq<Id>, rels: seq<Relationship>, v: Id)
    requires v !in NodesOf(entityIDs, rels)
    ensures StrengthOf(rels, v) == 0.0
    decreases |rels|
  {
    if rels != [] {
      var init, last := rels[..|rels| - 1], rels[|rels| - 1];
      UntouchedStrength(entityIDs, init, v);
    }
  }

  lemma StrengthsGrow(entityIDs: seq<Id>, rels: seq<Relationship>, rel: Relationship,
                      strength0: map<Id, real>, strength: map<Id, real>)
    requires strength0.Keys == NodesOf(entityIDs, rels)
    requires StrengthsBuilt(rels, strength0) && StrengthsAdded(rel, strength0, strength)
    ensures StrengthsBuilt(rels + [rel], strength)
  {
    forall v: Id | v in strength
      ensures strength[v] == StrengthOf(rels + [rel], v)
    {
      if v !in strength0 {
        UntouchedStrength(entityIDs, rels, v);
      }
    }
  }

  function GraphOf(adj: map<Id, map<Id, real>>, strength: map<Id, real>, total: real, resolution: real): WeightedGraph {
    WeightedGraph(adj, strength, total, resolution)
  }

  lemma {:induction false} LatestWeightSymmetric(rels: seq<Relationship>, i: Id, j: Id)
    ensures LatestWeight(rels, i, j) == LatestWeight(rels, j, i)
    decreases |rels|
  {
    if rels != [] {
      LatestWeightSymmetric(rels[..|rels| - 1], i, j);
    }
  }

  /** A built graph is symmetric and mentions only its own nodes. */
  lemma BuiltIsClosed(entityIDs: seq<Id>, rels: seq<Relationship>, adj: map<Id, map<Id, real>>,
                      strength: map<Id, real>, total: real, resolution: real)
    requires Built(entityIDs, rels, adj, strength, total)
    ensures ClosedGraph(GraphOf(adj, strength, total, resolution))
  {
    var g := GraphOf(adj, strength, total, resolution);
    forall i: Id, j: Id
      ensures g.Weight(i, j) == g.Weight(j, i)
    {
      LatestWeightSymmetric(rels, i, j);
    }
  }

  /** Handshake: the strengths add up to twice the total weight, loops and parallel edges included. */
  lemma {:induction false} StrengthsSumToTwiceTotal(nodes: set<Id>, rels: seq<Relationship>, f: Id -> real)
    requires forall r :: r in rels ==> r.sourceID in nodes && r.targetID in nodes
    requires forall v: Id :: v in nodes ==> f(v) == StrengthOf(rels, v)
    ensures Sum(nodes, f) == 2.0 * TotalOf(rels)
    decreases |rels|
  {
    if rels == [] {
      SumZero(nodes, f);
    } else {
      var init, last := rels[..|rels| - 1], rels[|rels| - 1];
      var before := (v: Id) => StrengthOf(init, v);
      var atSource := (v: Id) => if last.sourceID == v then EdgeWeight(last) else 0.0;
      var atTarget := (v: Id) => if last.targetID == v then EdgeWeight(last) else 0.0;
      var touched := (v: Id) => atSource(v) + atTarget(v);
      StrengthsSumToTwiceTotal(nodes, init, before);
      SumAdd(nodes, before, touched, f);
      SumAdd(nodes, atSource, atTarget, touched);
      SumRemove(nodes, last.sourceID, atSource);
      SumZero(nodes - {last.sourceID}, atSource);
      SumRemove(nodes, last.targetID, atTarget);
      SumZero(nodes - {last.targetID}, atTarget);
    }
  }
}
