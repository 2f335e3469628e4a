/**
 Connected components: every input node lies in exactly one component, and two
 nodes share a component exactly when relationships inside the input connect them.
 */
module Components {
  import opened Collections
  import opened Walks
  import opened RelationGraph

  /** Relationship steps between two members of `nodes`. */
  ghost function Inside(store: RelStore, nodes: set<Id>): Edges {
    set e | e in store.Neighbourhood() && e.0 in nodes && e.1 in nodes
  }

  /** The end of `rel` that is not `curr`; a self-loop gives `curr` again. */
  function OtherEnd(rel: Relationship, curr: Id): Id {
    if rel.targetID == curr then rel.sourceID else rel.targetID
  }

  ghost predicate Closed(edges: Edges, s: set<Id>) {
    forall a: Id, b: Id :: (a, b) in edges && a in s ==> b in s
  }

  /** `component` lists, once each, exactly what its first node reaches. */
  ghost predicate IsComponent(edges: Edges, component: seq<Id>) {
    && |component| > 0 && Distinct(component)
    && forall v: Id :: v in component <==> Reachable(edges, {component[0]}, v)
  }

  lemma InsideSymmetric(store: RelStore, nodes: set<Id>)
    requires store.Consistent()
    ensures Symmetric(Inside(store, nodes))
  {
  }

  /** The far ends the loop looks at are exactly the neighbours. */
  lemma NeighborsAreEdges(store: RelStore, u: Id, v: Id)
    requires store.Consistent()
    ensures (u, v) in store.Neighbourhood() <==> exists rel :: rel in store.GetNeighbors(u) && OtherEnd(rel, u) == v
  {
    if (u, v) in store.Neighbourhood() {
      var r, forward := store.NeighbourhoodWitness(u, v);
      assert r in store.GetNeighbors(u) && OtherEnd(r, u) == v;
    }
  }

  /** Every entry after the first is entered by an edge from an earlier one. */
  ghost predicate Linked(edges: Edges, found: seq<Id>) {
    forall i :: 0 < i < |found| ==> EnteredBefore(edges, found, i)
  }

  ghost predicate EnteredBefore(edges: Edges, found: seq<Id>, i: nat)
    requires i < |found|
  {
    exists j :: 0 <= j < i && (found[j], found[i]) in edges
  }

  lemma {:induction false} LinkedReachable(edges: Edges, found: seq<Id>, i: nat)
    requires Linked(edges, found) && i < |found|
    ensures Reachable(edges, {found[0]}, found[i])
  {
    if i == 0 {
      ReachStart(edges, {found[0]}, found[0]);
    } else {
      assert EnteredBefore(edges, found, i);
      var j :| 0 <= j < i && (found[j], found[i]) in edges;
      LinkedReachable(edges, found, j);
      ReachStep(edges, {found[0]}, found[j], found[i]);
    }
  }

  /** State of the inner search: `found` is what has been dequeued followed by the queue. */
  ghost predicate Exploring(edges: Edges, nodes: set<Id>, start: Id, before: set<Id>,
                            visited: set<Id>, found: seq<Id>) {
    && (forall v: Id :: v in visited <==> v in before || v in found)
    && (forall v: Id :: v in found ==> v in nodes && v !in before)
    && Distinct(found) && |found| > 0 && found[0] == start && Linked(edges, found)
  }

  method Explore(store: RelStore, nodes: set<Id>, start: Id, before: set<Id>)
    returns (component: seq<Id>, visited: set<Id>)
    requires store.Consistent() && start in nodes && start !in before
    requires Closed(Inside(store, nodes), before)
    ensures IsComponent(Inside(store, nodes), component) && component[0] == start
    ensures forall v: Id :: v in visited <==> v in before || v in component
    ensures forall v: Id :: v in component ==> v in nodes && v !in before
    ensures Closed(Inside(store, nodes), visited)
  {
    ghost var edges := Inside(store, nodes);
    component := [];
    var queue := [start];
    visited := before + {start};
    while |queue| > 0
      invariant Exploring(edges, nodes, start, before, visited, component + queue)
      invariant forall a: Id, b: Id :: a in component && (a, b) in edges ==> b in visited
      decreases |nodes - visited|, |queue|
    {
      var curr := queue[0];
      assert component + queue == (component + [curr]) + queue[1..];
      ghost var visited0, queue0 := visited, queue;
      visited, queue := VisitNeighbors(store, nodes, start, before, visited, component + [curr], queue[1..], curr);
      component := component + [curr];
      Progress(nodes, visited0, visited);
    }
    assert component + queue == component;
    InsideSymmetric(store, nodes);
    ComponentDone(edges, nodes, start, before, visited, component);
  }

  lemma Progress(nodes: set<Id>, visited0: set<Id>, visited: set<Id>)
    requires visited0 <= visited
    ensures |nodes - visited| <= |nodes - visited0|
    ensures visited * nodes != visited0 * nodes ==> |nodes - visited| < |nodes - visited0|
  {
    assert nodes - visited0 == (nodes - visited) + (visited - visited0) * nodes;
  }

  method VisitNeighbors(store: RelStore, nodes: set<Id>, ghost start: Id, ghost before: set<Id>,
                        visited0: set<Id>, ghost done: seq<Id>, queue0: seq<Id>, curr: Id)
    returns (visited: set<Id>, queue: seq<Id>)
    requires store.Consistent() && curr in done && curr in nodes
    requires Exploring(Inside(store, nodes), nodes, start, before, visited0, done + queue0)
    ensures Exploring(Inside(store, nodes), nodes, start, before, visited, done + queue)
    ensures visited0 <= visited
    ensures visited * nodes != visited0 * nodes || queue == queue0
    ensures forall b: Id :: (curr, b) in Inside(store, nodes) ==> b in visited
  {
    ghost var edges := Inside(store, nodes);
    var neighbors := store.GetNeighbors(curr);
    NeighborEnds(store, nodes, curr, neighbors);
    visited, queue := ScanNeighbors(edges, nodes, start, before, visited0, done, queue0, curr, neighbors);
  }

  lemma NeighborEnds(store: RelStore, nodes: set<Id>, curr: Id, neighbors: seq<Relationship>)
    requires store.Consistent() && curr in nodes && neighbors == store.GetNeighbors(curr)
    ensures forall i :: 0 <= i < |neighbors| && OtherEnd(neighbors[i], curr) in nodes ==>
              (curr, OtherEnd(neighbors[i], curr)) in Inside(store, nodes)
    ensures forall b: Id :: (curr, b) in Inside(store, nodes) ==>
              b in nodes && exists i :: 0 <= i < |neighbors| && OtherEnd(neighbors[i], curr) == b
  {
    forall b: Id | (curr, b) in Inside(store, nodes)
      ensures exists i :: 0 <= i < |neighbors| && OtherEnd(neighbors[i], curr) == b
    {
      NeighborsAreEdges(store, curr, b);
      var rel :| rel in neighbors && OtherEnd(rel, curr) == b;
    }
  }

  method ScanNeighbors(ghost edges: Edges, nodes: set<Id>, ghost start: Id, ghost before: set<Id>,
                       visited0: set<Id>, ghost done: seq<Id>, queue0: seq<Id>, curr: Id, neighbors: seq<Relationship>)
    returns (visited: set<Id>, queue: seq<Id>)
    requires Exploring(edges, nodes, start, before, visited0, done + queue0) && curr in done
    requires forall i :: 0 <= i < |neighbors| && OtherEnd(neighbors[i], curr) in nodes ==>
               (curr, OtherEnd(neighbors[i], curr)) in edges
    ensures Exploring(edges, nodes, start, before, visited, done + queue)
    ensures visited0 <= visited
    ensures visited * nodes != visited0 * nodes || queue == queue0
    ensures forall i :: 0 <= i < |neighbors| && OtherEnd(neighbors[i], curr) in nodes ==>
              OtherEnd(neighbors[i], curr) in visited
  {
    visited, queue := visited0, queue0;
    for k := 0 to |neighbors|
      invariant Exploring(edges, nodes, start, before, visited, done + queue)
      invariant visited0 <= visited
      invariant visited * nodes != visited0 * nodes || queue == queue0
      invariant forall i :: 0 <= i < k && OtherEnd(neighbors[i], curr) in nodes ==> OtherEnd(neighbors[i], curr) in visited
    {
      var nid := OtherEnd(neighbors[k], curr);
      if nid in nodes && nid !in visited {
        Found(edges, nodes, start, before, visited, done + queue, curr, nid);
        assert done + (queue + [nid]) == (done + queue) + [nid];
        visited := visited + {nid};
        queue := queue + [nid];
        assert nid in visited * nodes && nid !in visited0 * nodes;
      }
    }
  }

  lemma Found(edges: Edges, nodes: set<Id>, start: Id, before: set<Id>, visited: set<Id>,
              found: seq<Id>, curr: Id, nid: Id)
    requires Exploring(edges, nodes, start, before, visited, found)
    requires curr in found && (curr, nid) in edges && nid in nodes && nid !in visited
    ensures Exploring(edges, nodes, start, before, visited + {nid}, found + [nid])
  {
    var found' := found + [nid];
    forall i | 0 < i < |found'|
      ensures EnteredBefore(edges, found', i)
    {
      if i < |found| {
        assert EnteredBefore(edges, found, i);
        var j :| 0 <= j < i && (found[j], found[i]) in edges;
        assert (found'[j], found'[i]) in edges;
      } else {
        var j :| 0 <= j < |found| && found[j] == curr;
        assert (found'[j], found'[i]) in edges;
      }
    }
  }

  lemma ComponentDone(edges: Edges, nodes: set<Id>, start: Id, before: set<Id>, visited: set<Id>, component: seq<Id>)
    requires Exploring(edges, nodes, start, before, visited, component)
    requires forall a: Id, b: Id :: a in component && (a, b) in edges ==> b in visited
    requires Closed(edges, before) && Symmetric(edges)
    ensures IsComponent(edges, component) && Closed(edges, visited)
  {
    var inside := set v | v in component;
    forall v: Id
      ensures v in component <==> Reachable(edges, {start}, v)
    {
      if v in component {
        var i :| 0 <= i < |component| && component[i] == v;
        LinkedReachable(edges, component, i);
      } else if Reachable(edges, {start}, v) {
        ReachStaysInside(edges, {start}, inside, v);
      }
    }
  }

  method ConnectedComponents(entityIDs: seq<Id>, store: RelStore) returns (components: seq<seq<Id>>)
    requires store.Consistent()
    // every listed node is in exactly one component, and nothing else is in any
    ensures IsPartition(components, set e | e in entityIDs)
    // sharing a component is being connected inside the listed nodes
    ensures forall a: Id, b: Id :: a in entityIDs && b in entityIDs ==>
              (Together(components, a, b) <==> Reachable(Inside(store, set e | e in entityIDs), {a}, b))
  {
    var entitySet := set e | e in entityIDs;
    ghost var edges := Inside(store, entitySet);
    InsideSymmetric(store, entitySet);
    components := [];
    var visited: set<Id> := {};
    for k := 0 to |entityIDs|
      invariant Collected(edges, entitySet, visited, components)
      invariant forall i :: 0 <= i < k ==> entityIDs[i] in visited
    {
      var startID := entityIDs[k];
      if startID !in visited {
        ghost var before := visited;
        var component;
        component, visited := Explore(store, entitySet, startID, visited);
        CollectOne(edges, entitySet, before, components, visited, component);
        components := components + [component];
      }
    }
    forall a: Id, b: Id | a in entityIDs && b in entityIDs
      ensures Together(components, a, b) <==> Reachable(edges, {a}, b)
    {
      TogetherIffConnected(edges, entitySet, visited, components, a, b);
    }
  }

  /** The components found so far cover exactly the visited nodes, without overlap. */
  ghost predicate Collected(edges: Edges, nodes: set<Id>, visited: set<Id>, components: seq<seq<Id>>) {
    && visited <= nodes && Closed(edges, visited)
    && (forall i :: 0 <= i < |components| ==> IsComponent(edges, components[i]))
    && (forall i, j :: 0 <= i < j < |components| ==> forall v: Id :: v in components[i] ==> v !in components[j])
    && (forall v: Id :: v in visited <==> Together(components, v, v))
  }

  lemma CollectOne(edges: Edges, nodes: set<Id>, before: set<Id>, components: seq<seq<Id>>,
                   visited: set<Id>, component: seq<Id>)
    requires Collected(edges, nodes, before, components)
    requires IsComponent(edges, component) && Closed(edges, visited)
    requires forall v: Id :: v in visited <==> v in before || v in component
    requires forall v: Id :: v in component ==> v in nodes && v !in before
    ensures Collected(edges, nodes, visited, components + [component])
  {
    var all := components + [component];
    forall v: Id
      ensures v in visited <==> Together(all, v, v)
    {
      if v in before {
        var i :| 0 <= i < |components| && v in components[i];
        assert v in all[i];
      } else if v in component {
        assert v in all[|components|];
      }
    }
  }

  lemma TogetherIffConnected(edges: Edges, nodes: set<Id>, visited: set<Id>, components: seq<seq<Id>>, a: Id, b: Id)
    requires Collected(edges, nodes, visited, components) && Symmetric(edges)
    requires a in visited
    ensures Together(components, a, b) <==> Reachable(edges, {a}, b)
  {
    if Together(components, a, b) {
      var i :| 0 <= i < |components| && a in components[i] && b in components[i];
      ReachReverse(edges, components[i][0], a);
      ReachCompose(edges, {a}, components[i][0], b);
    } else if Reachable(edges, {a}, b) {
      var i :| 0 <= i < |components| && a in components[i];
      assert IsComponent(edges, components[i]);
      ReachCompose(edges, {components[i][0]}, a, b);
    }
  }
}
