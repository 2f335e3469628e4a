/**
 What insertion keeps: no missing references, lists without repetition, and, while no list
 on level 0 is full, everything that was reachable.
 */
module HnswGrowth {
  import opened Collections
  import opened Walks
  import opened LayerSearch
  import opened HnswLinks
  import opened HnswInsert

  /** Level 0 after an insertion into a graph with nodes. */
  ghost predicate GroundLinked(w: Insertion, nodes: Nodes, list: seq<Id>) {
    && list == FriendsAt(nodes, w.id, 0)
    && Distinct(list) && (w.config.m >= 1 ==> |list| > 0) && (forall f :: f in list ==> f in w.nodes)
    && forall v: Id :: v in w.nodes ==>
         if v in list then LinkedTo(w.nodes, w.sim, w.config.m, v, 0, w.id, FriendsAt(nodes, v, 0))
         else FriendsAt(nodes, v, 0) == FriendsAt(w.nodes, v, 0)
  }

  lemma GroundIsLinked(w: Insertion, nodes: Nodes, starts: seq<Id>)
    requires w.Valid() && |w.nodes| > 0 && Linked(w, nodes, starts)
    ensures GroundLinked(w, nodes, FriendsAt(nodes, w.id, 0))
  {
    hide LinkedTo, ListChosen, StartOk;
    assert LevelOk(w, nodes, nodes[w.id].friends, starts, 0);
    assert w.Top() >= 0;
    ListIsLive(w, 0, starts[0], nodes[w.id].friends[0]);
  }

  /** An index without missing references or, from two nodes on, linkless nodes gains none. */
  lemma InsertedStaysWhole(w: Insertion, nodes: Nodes, starts: seq<Id>)
    requires w.Valid() && Linked(w, nodes, starts) && w.config.m >= 1 && Whole(w.nodes)
    ensures Whole(nodes)
  {
    hide Linked, GroundLinked, Whole, Insertion.Valid;
    forall v: Id, k: nat, f: Id | v in nodes && f in FriendsAt(nodes, v, k) ensures f in nodes {
      NothingDangles(w, nodes, starts, v, k, f);
    }
    StaysLinked(w, nodes, starts);
    WholeBecause(nodes);
  }

  lemma WholeBecause(nodes: Nodes)
    requires forall v: Id, k: nat, f: Id :: v in nodes && f in FriendsAt(nodes, v, k) ==> f in nodes
    requires |nodes| > 1 ==> forall v: Id :: v in nodes ==> FriendsAt(nodes, v, 0) != []
    ensures Whole(nodes)
  {
  }

  lemma NothingDangles(w: Insertion, nodes: Nodes, starts: seq<Id>, v: Id, k: nat, f: Id)
    requires w.Valid() && Linked(w, nodes, starts) && Whole(w.nodes)
    requires v in nodes && f in FriendsAt(nodes, v, k)
    ensures f in nodes
  {
    hide LinkedTo, ListChosen, StartOk;
    var lists := nodes[w.id].friends;
    assert LevelOk(w, nodes, lists, starts, k);
    if k <= w.Top() {
      ListIsLive(w, k, starts[k], lists[k]);
      if v in lists[k] && HasLevel(w.nodes, v, k) {
        assert ListOk(w.nodes, w.config.m, v, k);
        LinkedToBounds(w.nodes, w.sim, w.config.m, v, k, w.id, FriendsAt(nodes, v, k));
      }
    }
  }

  lemma StaysLinked(w: Insertion, nodes: Nodes, starts: seq<Id>)
    requires w.Valid() && Linked(w, nodes, starts) && w.config.m >= 1 && Whole(w.nodes)
    ensures |nodes| > 1 ==> forall v: Id :: v in nodes ==> FriendsAt(nodes, v, 0) != []
  {
    if |w.nodes| > 0 {
      GroundIsLinked(w, nodes, starts);
      forall v: Id | v in nodes ensures FriendsAt(nodes, v, 0) != [] {
        if v != w.id {
          StillLinked(w, nodes, FriendsAt(nodes, w.id, 0), v);
        }
      }
    } else {
      assert nodes.Keys == {w.id};
      assert |nodes| == |nodes.Keys|;
    }
  }

  lemma StillLinked(w: Insertion, nodes: Nodes, list: seq<Id>, v: Id)
    requires w.Valid() && w.config.m >= 1 && Whole(w.nodes) && v in w.nodes && GroundLinked(w, nodes, list)
    ensures FriendsAt(nodes, v, 0) != []
  {
    hide LinkedTo;
    if v in list {
      assert ListOk(w.nodes, w.config.m, v, 0);
      LinkedToBounds(w.nodes, w.sim, w.config.m, v, 0, w.id, FriendsAt(nodes, v, 0));
    } else {
      AtLeastTwo(w.nodes.Keys, v, list[0]);
    }
  }

  /** Lists on level 0 stay without repetition. */
  lemma InsertedStaysNeat(w: Insertion, nodes: Nodes, starts: seq<Id>)
    requires w.Valid() && Linked(w, nodes, starts) && Whole(w.nodes) && Neat(w.nodes)
    ensures Neat(nodes)
  {
    if |w.nodes| > 0 {
      GroundIsLinked(w, nodes, starts);
      hide Linked;
      forall v: Id | v in w.nodes ensures Distinct(FriendsAt(nodes, v, 0)) {
        var longer := FriendsAt(w.nodes, v, 0) + [w.id];
        assert w.id !in FriendsAt(w.nodes, v, 0);
        assert Distinct(longer);
      }
    } else {
      assert LevelOk(w, nodes, nodes[w.id].friends, starts, 0);
      assert w.nodes == map[];
    }
  }

  /** With room everywhere on level 0 no link is lost, and the new node is linked in both directions. */
  lemma LinksGrow(w: Insertion, nodes: Nodes, list: seq<Id>)
    requires w.Valid() && nodes.Keys == w.nodes.Keys + {w.id} && Roomy(w.nodes, w.config.m) && GroundLinked(w, nodes, list)
    ensures LevelEdges(w.nodes, 0) <= LevelEdges(nodes, 0)
    ensures forall v :: v in list ==> (v, w.id) in LevelEdges(nodes, 0) && (w.id, v) in LevelEdges(nodes, 0)
  {
    forall v: Id | v in w.nodes
      ensures FriendsAt(nodes, v, 0) == FriendsAt(w.nodes, v, 0) + if v in list then [w.id] else []
    {
    }
  }

  /** Everything reachable from a node stays so, and what led to a neighbour of the new node leads to it. */
  lemma ReachGrows(w: Insertion, nodes: Nodes, list: seq<Id>, e: Id)
    requires w.Valid() && nodes.Keys == w.nodes.Keys + {w.id} && Roomy(w.nodes, w.config.m) && GroundLinked(w, nodes, list)
    requires e in w.nodes
    ensures ReachSet(w.nodes, 0, e) <= ReachSet(nodes, 0, e)
    ensures forall v :: v in list && v in ReachSet(w.nodes, 0, e) ==> w.id in ReachSet(nodes, 0, e)
  {
    var edges := LevelEdges(nodes, 0);
    LinksGrow(w, nodes, list);
    hide GroundLinked, Roomy;
    ReachIsExplored(nodes, 0, e);
    forall v: Id | v in ReachSet(w.nodes, 0, e) ensures v in ReachSet(nodes, 0, e) {
      forall a: Id, b: Id | (a, b) in LevelEdges(w.nodes, 0) && a in ReachSet(nodes, 0, e) ensures b in ReachSet(nodes, 0, e) {
        ReachStep(edges, {e}, a, b);
      }
      ReachStaysInside(LevelEdges(w.nodes, 0), {e}, ReachSet(nodes, 0, e), v);
    }
    forall v | v in list && v in ReachSet(w.nodes, 0, e) ensures w.id in ReachSet(nodes, 0, e) {
      ReachStep(edges, {e}, v, w.id);
    }
  }

  /**
   With room on level 0, a node that led to every node leads to every node afterwards, the new one
   included; and if every node did, every node does.
   */
  lemma InsertedStaysReachable(w: Insertion, nodes: Nodes, starts: seq<Id>)
    requires w.Valid() && Linked(w, nodes, starts) && w.config.m >= 1 && Roomy(w.nodes, w.config.m)
    ensures forall e: Id :: e in w.nodes && ReachSet(w.nodes, 0, e) == w.nodes.Keys ==> ReachSet(nodes, 0, e) == nodes.Keys
    ensures Connected(w.nodes) ==> Connected(nodes)
  {
    hide Linked, Insertion.Valid, Roomy;
    assert nodes.Keys == w.nodes.Keys + {w.id} by { KeysGrow(w, nodes, starts); }
    if w.nodes == map[] {
      ReachIsExplored(nodes, 0, w.id);
      assert nodes.Keys == {w.id};
    } else {
      var list := FriendsAt(nodes, w.id, 0);
      NotEmpty(w.nodes);
      GroundIsLinked(w, nodes, starts);
      forall e: Id | e in w.nodes && ReachSet(w.nodes, 0, e) == w.nodes.Keys ensures ReachSet(nodes, 0, e) == nodes.Keys {
        ReachGrows(w, nodes, list, e);
        SomeNeighbour(w, nodes, list);
      }
      if Connected(w.nodes) {
        NewLeadsEverywhere(w, nodes, list);
      }
    }
  }

  lemma KeysGrow(w: Insertion, nodes: Nodes, starts: seq<Id>)
    requires Linked(w, nodes, starts)
    ensures nodes.Keys == w.nodes.Keys + {w.id}
  {
  }

  lemma NotEmpty(nodes: Nodes)
    requires nodes != map[]
    ensures |nodes| > 0
  {
    assert |nodes| == 0 ==> nodes == map[];
  }

  lemma SomeNeighbour(w: Insertion, nodes: Nodes, list: seq<Id>)
    requires w.config.m >= 1 && GroundLinked(w, nodes, list)
    ensures |list| > 0 && list[0] in list && list[0] in w.nodes
  {
  }

  lemma NewLeadsEverywhere(w: Insertion, nodes: Nodes, list: seq<Id>)
    requires w.Valid() && nodes.Keys == w.nodes.Keys + {w.id} && Roomy(w.nodes, w.config.m) && GroundLinked(w, nodes, list)
    requires w.config.m >= 1 && Connected(w.nodes)
    ensures ReachSet(nodes, 0, w.id) == nodes.Keys
  {
    SomeNeighbour(w, nodes, list);
    var edges, v := LevelEdges(nodes, 0), list[0];
    assert ReachSet(w.nodes, 0, v) == w.nodes.Keys;
    hide *;
    LinksGrow(w, nodes, list);
    ReachGrows(w, nodes, list, v);
    LeadsThrough(nodes, w.id, v);
  }

  lemma LeadsThrough(nodes: Nodes, id: Id, v: Id)
    requires id in nodes && (id, v) in LevelEdges(nodes, 0) && nodes.Keys - {id} <= ReachSet(nodes, 0, v)
    ensures ReachSet(nodes, 0, id) == nodes.Keys
  {
    hide LevelEdges, Reachable;
    var edges := LevelEdges(nodes, 0);
    ReachStart(edges, {id}, id);
    ReachStep(edges, {id}, id, v);
    forall u: Id | u in nodes ensures u in ReachSet(nodes, 0, id) {
      if u != id {
        assert u in ReachSet(nodes, 0, v);
        ReachCompose(edges, {id}, v, u);
      }
    }
  }

  /** What one insertion keeps of a graph's links. */
  ghost predicate KeepsLinks(nodes0: Nodes, nodes: Nodes, m: nat) {
    && (Whole(nodes0) ==> Whole(nodes) && (Neat(nodes0) ==> Neat(nodes)))
    // with room on level 0, what led to every node leads to every node, the new one included
    && (Roomy(nodes0, m) ==>
          && (forall e: Id :: e in nodes0 && ReachSet(nodes0, 0, e) == nodes0.Keys ==> ReachSet(nodes, 0, e) == nodes.Keys)
          && (Connected(nodes0) ==> Connected(nodes)))
  }

  lemma InsertionKeepsLinks(w: Insertion, nodes: Nodes, starts: seq<Id>)
    requires w.Valid() && Linked(w, nodes, starts) && w.config.m >= 1
    ensures KeepsLinks(w.nodes, nodes, w.config.m)
  {
    hide Whole, Neat, Roomy, Connected, Linked, Insertion.Valid;
    if Whole(w.nodes) {
      InsertedStaysWhole(w, nodes, starts);
      if Neat(w.nodes) {
        InsertedStaysNeat(w, nodes, starts);
      }
    }
    if Roomy(w.nodes, w.config.m) {
      InsertedStaysReachable(w, nodes, starts);
    }
  }

  /** A graph grown from nothing: whole and neat, and connected as long as no list can have been full. */
  ghost predicate WellGrown(nodes: Nodes, m: nat) {
    Whole(nodes) && Neat(nodes) && (|nodes| <= 2 * m + 1 ==> Connected(nodes))
  }

  lemma EmptyIsWellGrown(m: nat)
    ensures WellGrown(map[], m)
  {
  }

  lemma GrowsWell(nodes0: Nodes, nodes: Nodes, m: nat, id: Id)
    requires GraphOk(nodes0, m) && WellGrown(nodes0, m) && KeepsLinks(nodes0, nodes, m)
    requires id !in nodes0 && nodes.Keys == nodes0.Keys + {id}
    ensures WellGrown(nodes, m)
  {
    hide GraphOk, Neat, Roomy, Connected;
    assert |nodes| == |nodes.Keys| == |nodes0.Keys| + 1 && |nodes0| == |nodes0.Keys|;
    if |nodes0| <= 2 * m {
      FewAreRoomy(nodes0, m);
    }
  }

  /** Up to 2M nodes, no list can be full. */
  lemma FewAreRoomy(nodes: Nodes, m: nat)
    requires GraphOk(nodes, m) && NoDangling(nodes) && Neat(nodes) && |nodes| <= 2 * m
    ensures Roomy(nodes, m)
  {
    forall v: Id | v in nodes ensures |FriendsAt(nodes, v, 0)| < 2 * m {
      var list := FriendsAt(nodes, v, 0);
      assert ListOk(nodes, m, v, 0);
      DistinctSize(list);
      assert Members(list) <= nodes.Keys - {v};
      SubsetSize(Members(list), nodes.Keys - {v});
      assert |nodes.Keys - {v}| == |nodes.Keys| - 1 && |nodes| == |nodes.Keys|;
    }
  }
}
