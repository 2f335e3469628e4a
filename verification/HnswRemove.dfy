/**
 Taking a node out of the layered graph and reconnecting the nodes it linked.
 */
module HnswRemove {
  import opened Collections
  import opened LayerSearch
  import opened HnswLinks
  import opened HnswInsert

  function Without(list: seq<Id>, id: Id): (r: seq<Id>)
    ensures |r| <= |list| && forall f :: f in r <==> f in list && f != id
  {
    if list == [] then []
    else
      var n := |list| - 1;
      assert list == list[..n] + [list[n]];
      Without(list[..n], id) + if list[n] != id then [list[n]] else []
  }

  /** Level `l` without the back references its friends had to `id`. */
  ghost predicate Detached(nodes0: Nodes, nodes: Nodes, m: nat, id: Id, l: nat, friends: seq<Id>, affected: set<Id>) {
    && SameShape(nodes0, nodes) && GraphOk(nodes, m)
    && (forall v: Id :: v in affected <==> v in friends && HasLevel(nodes0, v, l))
    && (forall v: Id, k: nat :: k != l || v !in affected ==> FriendsAt(nodes, v, k) == FriendsAt(nodes0, v, k))
    && (forall v: Id, f: Id :: v in affected ==> (f in FriendsAt(nodes, v, l) <==> f in FriendsAt(nodes0, v, l) && f != id))
  }

  method Detach(nodes0: Nodes, m: nat, id: Id, l: nat, friends: seq<Id>) returns (nodes: Nodes, affected: set<Id>)
    requires GraphOk(nodes0, m)
    ensures Detached(nodes0, nodes, m, id, l, friends, affected)
  {
    nodes, affected := nodes0, {};
    for k := 0 to |friends|
      invariant Detached(nodes0, nodes, m, id, l, friends[..k], affected)
    {
      var friendID := friends[k];
      assert friends[..k + 1] == friends[..k] + [friendID];
      if HasLevel(nodes, friendID, l) {
        var list := Without(FriendsAt(nodes, friendID, l), id);
        assert ListOk(nodes, m, friendID, l);
        SetListOk(nodes, m, friendID, l, list);
        nodes := SetList(nodes, friendID, l, list);
        affected := affected + {friendID};
      }
    }
  }

  /** Reconnection only adds links among the affected nodes, on one level. */
  ghost predicate Reconnected(nodes0: Nodes, nodes: Nodes, m: nat, l: nat, affected: set<Id>) {
    && SameShape(nodes0, nodes) && GraphOk(nodes, m)
    && (forall v: Id, k: nat :: k != l || v !in affected ==> FriendsAt(nodes, v, k) == FriendsAt(nodes0, v, k))
    && (forall v: Id, f: Id :: f in FriendsAt(nodes, v, l) ==> f in FriendsAt(nodes0, v, l) || f in affected)
    && Longer(nodes0, nodes, l)
  }

  /** Lists on level `l` have only been added to. */
  ghost predicate Longer(nodes0: Nodes, nodes: Nodes, l: nat) {
    && (forall v: Id :: |FriendsAt(nodes0, v, l)| <= |FriendsAt(nodes, v, l)|)
    && (forall v: Id, f: Id :: f in FriendsAt(nodes0, v, l) ==> f in FriendsAt(nodes, v, l))
  }

  lemma Relink(nodes0: Nodes, nodes: Nodes, m: nat, l: nat, affected: set<Id>, v: Id, f: Id)
    requires Reconnected(nodes0, nodes, m, l, affected)
    requires v in affected && f in affected && v != f && HasLevel(nodes, v, l) && |FriendsAt(nodes, v, l)| < 2 * m
    ensures Reconnected(nodes0, SetList(nodes, v, l, FriendsAt(nodes, v, l) + [f]), m, l, affected)
  {
    assert ListOk(nodes, m, v, l);
    SetListOk(nodes, m, v, l, FriendsAt(nodes, v, l) + [f]);
  }

  function MaxFriends(m: nat, l: nat): nat {
    if l == 0 then m * 2 else m
  }

  /** A node that has no room left, or names every other affected node. */
  ghost predicate Served(nodes: Nodes, m: nat, l: nat, affected: set<Id>, v: Id) {
    |FriendsAt(nodes, v, l)| >= (if l == 0 then 2 * m else m) || forall f: Id :: f in affected && f != v ==> f in FriendsAt(nodes, v, l)
  }

  /** The affected nodes are live and reach up to the level. */
  ghost predicate AllOnLevel(nodes: Nodes, affected: set<Id>, l: nat) {
    forall v: Id :: v in affected ==> HasLevel(nodes, v, l)
  }

  /** Other affected nodes that `v` does not link yet, in some order. */
  method ReconnectCandidates(nodes: Nodes, l: nat, affected: set<Id>, v: Id) returns (candidates: seq<Id>)
    ensures forall f: Id :: f in candidates <==> f in affected && f != v && f !in FriendsAt(nodes, v, l)
  {
    candidates := [];
    var rest := affected;
    while rest != {}
      invariant rest <= affected
      invariant forall f: Id :: f in candidates <==> f in affected && f !in rest && f != v && f !in FriendsAt(nodes, v, l)
      decreases rest
    {
      var f: Id :| f in rest;
      rest := rest - {f};
      if f != v && f !in FriendsAt(nodes, v, l) {
        candidates := candidates + [f];
      }
    }
  }

  /** Adds both directions of one new link, the second only if there is room. */
  method LinkBoth(ghost nodes0: Nodes, nodes1: Nodes, m: nat, l: nat, ghost affected: set<Id>, v: Id, f: Id) returns (nodes: Nodes)
    requires Reconnected(nodes0, nodes1, m, l, affected)
    requires v in affected && f in affected && v != f && HasLevel(nodes1, v, l)
    requires |FriendsAt(nodes1, v, l)| < MaxFriends(m, l)
    ensures Reconnected(nodes0, nodes, m, l, affected) && SameShape(nodes1, nodes) && Longer(nodes1, nodes, l)
    ensures FriendsAt(nodes, v, l) == FriendsAt(nodes1, v, l) + if HasLevel(nodes1, f, l) then [f] else []
  {
    nodes := nodes1;
    if HasLevel(nodes, f, l) {
      Relink(nodes0, nodes, m, l, affected, v, f);
      nodes := SetList(nodes, v, l, FriendsAt(nodes, v, l) + [f]);
      if |FriendsAt(nodes, f, l)| < MaxFriends(m, l) {
        Relink(nodes0, nodes, m, l, affected, f, v);
        nodes := SetList(nodes, f, l, FriendsAt(nodes, f, l) + [v]);
      }
    }
  }

  /** Gives one affected node with room the closest of the others as new friends. */
  method ReconnectOne(ghost nodes0: Nodes, nodes1: Nodes, sim: Similarity, m: nat, l: nat, affected: set<Id>, v: Id) returns (nodes: Nodes)
    requires Reconnected(nodes0, nodes1, m, l, affected) && v in affected
    ensures Reconnected(nodes0, nodes, m, l, affected) && SameShape(nodes1, nodes) && Longer(nodes1, nodes, l)
    ensures AllOnLevel(nodes1, affected, l) ==> Served(nodes, m, l, affected, v)
  {
    hide Reconnected, SameShape, Longer, Served, Chosen, GraphOk, Near;
    nodes := nodes1;
    NothingLonger(nodes1, l);
    if !HasLevel(nodes, v, l) {
      return;
    }
    var count := |FriendsAt(nodes, v, l)|;
    if count < MaxFriends(m, l) {
      var candidates := ReconnectCandidates(nodes, l, affected, v);
      if |candidates| == 0 {
        NamesAll(nodes, m, l, affected, v);
        return;
      }
      var selected := SelectNeighbors(nodes, sim, nodes[v].vector, candidates, MaxFriends(m, l) - count);
      for k := 0 to |selected|
        invariant Reconnected(nodes0, nodes, m, l, affected) && HasLevel(nodes, v, l)
        invariant SameShape(nodes1, nodes) && Longer(nodes1, nodes, l)
        invariant |FriendsAt(nodes, v, l)| <= count + k
        invariant AllOnLevel(nodes1, affected, l) ==>
                    FriendsAt(nodes, v, l) == FriendsAt(nodes1, v, l) + selected[..k]
      {
        ghost var before := nodes;
        nodes := LinkBoth(nodes0, nodes, m, l, affected, v, selected[k]);
        StillLonger(nodes1, before, nodes, l);
        assert selected[..k + 1] == selected[..k] + [selected[k]];
      }
      assert selected[..|selected|] == selected;
      NowServed(nodes1, nodes, sim, m, l, affected, v, candidates, selected);
    } else {
      FullIsServed(nodes, m, l, affected, v);
    }
  }

  lemma NothingLonger(nodes: Nodes, l: nat)
    ensures SameShape(nodes, nodes) && Longer(nodes, nodes, l)
  {
  }

  lemma StillLonger(nodes1: Nodes, before: Nodes, nodes: Nodes, l: nat)
    requires SameShape(nodes1, before) && SameShape(before, nodes) && Longer(nodes1, before, l) && Longer(before, nodes, l)
    ensures SameShape(nodes1, nodes) && Longer(nodes1, nodes, l)
    ensures forall v: Id :: HasLevel(nodes1, v, l) == HasLevel(nodes, v, l) == HasLevel(before, v, l)
  {
  }

  lemma NamesAll(nodes: Nodes, m: nat, l: nat, affected: set<Id>, v: Id)
    requires forall f: Id :: f in affected && f != v ==> f in FriendsAt(nodes, v, l)
    ensures Served(nodes, m, l, affected, v)
  {
  }

  lemma FullIsServed(nodes: Nodes, m: nat, l: nat, affected: set<Id>, v: Id)
    requires |FriendsAt(nodes, v, l)| >= MaxFriends(m, l)
    ensures Served(nodes, m, l, affected, v)
  {
  }

  /** The candidates that were selected make `v` name all others or fill its list. */
  lemma NowServed(nodes1: Nodes, nodes: Nodes, sim: Similarity, m: nat, l: nat, affected: set<Id>, v: Id,
                  candidates: seq<Id>, selected: seq<Id>)
    requires v in nodes1 && |FriendsAt(nodes1, v, l)| < MaxFriends(m, l)
    requires forall f: Id :: f in candidates <==> f in affected && f != v && f !in FriendsAt(nodes1, v, l)
    requires Chosen(nodes1, sim, nodes1[v].vector, candidates, MaxFriends(m, l) - |FriendsAt(nodes1, v, l)|, selected)
    requires AllOnLevel(nodes1, affected, l) ==> FriendsAt(nodes, v, l) == FriendsAt(nodes1, v, l) + selected
    ensures AllOnLevel(nodes1, affected, l) ==> Served(nodes, m, l, affected, v)
  {
    if AllOnLevel(nodes1, affected, l) && |candidates| > MaxFriends(m, l) - |FriendsAt(nodes1, v, l)| {
      LiveAll(nodes1, candidates);
    }
  }

  lemma StillServed(nodes1: Nodes, nodes: Nodes, m: nat, l: nat, affected: set<Id>)
    requires Longer(nodes1, nodes, l)
    ensures forall v: Id :: Served(nodes1, m, l, affected, v) ==> Served(nodes, m, l, affected, v)
  {
  }

  /** Afterwards every affected node names all the others or is full. */
  method ReconnectNeighbors(nodes0: Nodes, sim: Similarity, m: nat, l: nat, affected: set<Id>) returns (nodes: Nodes)
    requires GraphOk(nodes0, m)
    ensures Reconnected(nodes0, nodes, m, l, affected)
    ensures AllOnLevel(nodes0, affected, l) ==> forall v: Id :: v in affected ==> Served(nodes, m, l, affected, v)
  {
    hide Reconnected, Served, Longer, SameShape, GraphOk, HasLevel;
    nodes := nodes0;
    StartsReconnected(nodes0, m, l, affected);
    if |affected| < 2 {
      AloneIsServed(nodes, m, l, affected);
      return;
    }
    var rest := affected;
    while rest != {}
      invariant rest <= affected && Reconnected(nodes0, nodes, m, l, affected)
      invariant AllOnLevel(nodes0, affected, l) ==>
                  AllOnLevel(nodes, affected, l) && forall v: Id :: v in affected && v !in rest ==> Served(nodes, m, l, affected, v)
      decreases rest
    {
      var neighborID: Id :| neighborID in rest;
      rest := rest - {neighborID};
      ghost var nodes1 := nodes;
      nodes := ReconnectOne(nodes0, nodes, sim, m, l, affected, neighborID);
      StillServed(nodes1, nodes, m, l, affected);
      StillOnLevel(nodes1, nodes, affected, l);
    }
  }

  lemma StartsReconnected(nodes: Nodes, m: nat, l: nat, affected: set<Id>)
    requires GraphOk(nodes, m)
    ensures Reconnected(nodes, nodes, m, l, affected)
  {
  }

  lemma AloneIsServed(nodes: Nodes, m: nat, l: nat, affected: set<Id>)
    requires |affected| < 2
    ensures forall v: Id :: v in affected ==> Served(nodes, m, l, affected, v)
  {
    forall v: Id, f: Id | v in affected && f in affected ensures f == v {
      if f != v {
        AtLeastTwo(affected, f, v);
      }
    }
  }

  lemma StillOnLevel(nodes1: Nodes, nodes: Nodes, affected: set<Id>, l: nat)
    requires SameShape(nodes1, nodes)
    ensures AllOnLevel(nodes1, affected, l) ==> AllOnLevel(nodes, affected, l)
  {
  }

  /** On level `l` each live node the removed one named there now names all the others of them, or is full. */
  ghost predicate Rejoined(nodes0: Nodes, nodes: Nodes, m: nat, id: Id, l: nat) {
    forall v: Id :: v in Neighbours(nodes0, id, l) ==> Served(nodes, m, l, Neighbours(nodes0, id, l), v)
  }

  ghost function Neighbours(nodes: Nodes, id: Id, l: nat): set<Id> {
    set v: Id | v in FriendsAt(nodes, id, l) && HasLevel(nodes, v, l)
  }

  /** References to `id` on level `l` now: those of nodes `id` itself did not name there. */
  ghost predicate Forgotten(nodes0: Nodes, nodes: Nodes, id: Id, l: nat) {
    forall v: Id :: v != id ==>
      (id in FriendsAt(nodes, v, l) <==> id in FriendsAt(nodes0, v, l) && v !in FriendsAt(nodes0, id, l))
  }

  /** New references on level `l` lead to live nodes that `id` had named there. */
  ghost predicate OnlyHeirs(nodes0: Nodes, nodes: Nodes, id: Id, l: nat) {
    forall v: Id, f: Id :: f in FriendsAt(nodes, v, l) ==>
      f in FriendsAt(nodes0, v, l) || (f in FriendsAt(nodes0, id, l) && f in nodes0 && f != id)
  }

  /** Levels below `l` are done, the others untouched. */
  ghost predicate Removing(nodes0: Nodes, nodes: Nodes, m: nat, id: Id, l: nat) {
    && SameShape(nodes0, nodes) && GraphOk(nodes, m)
    && (forall v: Id, k: nat :: k >= l ==> FriendsAt(nodes, v, k) == FriendsAt(nodes0, v, k))
    && (forall k: nat :: k < l ==> Forgotten(nodes0, nodes, id, k) && OnlyHeirs(nodes0, nodes, id, k) && Rejoined(nodes0, nodes, m, id, k))
  }

  lemma LevelDone(nodes0: Nodes, nodes1: Nodes, nodes2: Nodes, nodes3: Nodes, m: nat, id: Id, l: nat, affected: set<Id>)
    requires id in nodes0 && GraphOk(nodes0, m) && Removing(nodes0, nodes1, m, id, l)
    requires Detached(nodes1, nodes2, m, id, l, FriendsAt(nodes0, id, l), affected)
    requires Reconnected(nodes2, nodes3, m, l, affected)
    requires AllOnLevel(nodes2, affected, l) ==> forall v: Id :: v in affected ==> Served(nodes3, m, l, affected, v)
    ensures Removing(nodes0, nodes3, m, id, l + 1)
  {
    RejoinedAfterLevel(nodes0, nodes1, nodes2, nodes3, m, id, l, affected);
    LevelDoneElsewhere(nodes0, nodes1, nodes2, nodes3, m, id, l, affected);
    HeirsAfterLevel(nodes0, nodes1, nodes2, nodes3, m, id, l, affected);
    hide Detached, Reconnected, Forgotten, OnlyHeirs, Rejoined, GraphOk, SameShape, FriendsAt;
    forall k: nat | k < l
      ensures Forgotten(nodes0, nodes3, id, k) && OnlyHeirs(nodes0, nodes3, id, k) && Rejoined(nodes0, nodes3, m, id, k)
    {
      OtherLevel(nodes0, nodes1, nodes3, m, id, k);
    }
  }

  lemma OtherLevel(nodes0: Nodes, nodes1: Nodes, nodes3: Nodes, m: nat, id: Id, k: nat)
    requires Forgotten(nodes0, nodes1, id, k) && OnlyHeirs(nodes0, nodes1, id, k) && Rejoined(nodes0, nodes1, m, id, k)
    requires forall v: Id :: FriendsAt(nodes3, v, k) == FriendsAt(nodes1, v, k)
    ensures Forgotten(nodes0, nodes3, id, k) && OnlyHeirs(nodes0, nodes3, id, k) && Rejoined(nodes0, nodes3, m, id, k)
  {
    hide Neighbours;
    forall v: Id | v in Neighbours(nodes0, id, k) ensures Served(nodes3, m, k, Neighbours(nodes0, id, k), v) {
      assert Served(nodes1, m, k, Neighbours(nodes0, id, k), v);
    }
  }

  lemma RejoinedAfterLevel(nodes0: Nodes, nodes1: Nodes, nodes2: Nodes, nodes3: Nodes, m: nat, id: Id, l: nat, affected: set<Id>)
    requires SameShape(nodes0, nodes1) && Detached(nodes1, nodes2, m, id, l, FriendsAt(nodes0, id, l), affected)
    requires AllOnLevel(nodes2, affected, l) ==> forall v: Id :: v in affected ==> Served(nodes3, m, l, affected, v)
    ensures Rejoined(nodes0, nodes3, m, id, l)
  {
    assert affected == Neighbours(nodes0, id, l);
  }

  /** The other levels are as they were. */
  lemma LevelDoneElsewhere(nodes0: Nodes, nodes1: Nodes, nodes2: Nodes, nodes3: Nodes, m: nat, id: Id, l: nat, affected: set<Id>)
    requires id in nodes0 && GraphOk(nodes0, m) && Removing(nodes0, nodes1, m, id, l)
    requires Detached(nodes1, nodes2, m, id, l, FriendsAt(nodes0, id, l), affected)
    requires Reconnected(nodes2, nodes3, m, l, affected)
    ensures id !in affected && SameShape(nodes0, nodes3) && GraphOk(nodes3, m)
    ensures forall v: Id, k: nat :: k != l ==> FriendsAt(nodes3, v, k) == FriendsAt(nodes1, v, k)
    ensures forall v: Id, k: nat :: k >= l + 1 ==> FriendsAt(nodes3, v, k) == FriendsAt(nodes0, v, k)
  {
    hide Forgotten, OnlyHeirs;
    assert ListOk(nodes0, m, id, l);
  }

  lemma HeirsAfterLevel(nodes0: Nodes, nodes1: Nodes, nodes2: Nodes, nodes3: Nodes, m: nat, id: Id, l: nat, affected: set<Id>)
    requires Removing(nodes0, nodes1, m, id, l) && id !in affected
    requires Detached(nodes1, nodes2, m, id, l, FriendsAt(nodes0, id, l), affected)
    requires Reconnected(nodes2, nodes3, m, l, affected)
    ensures OnlyHeirs(nodes0, nodes3, id, l)
  {
    forall v: Id, f: Id | f in FriendsAt(nodes3, v, l)
      ensures f in FriendsAt(nodes0, v, l) || (f in FriendsAt(nodes0, id, l) && f in nodes0 && f != id)
    {
      assert f in affected ==> f in nodes0 && f != id;
    }
  }

  /** A live node of greatest level. */
  method HighestNode(nodes: Nodes) returns (entryID: Id, maxLevel: int)
    requires |nodes| > 0
    ensures EntryOk(nodes, entryID, maxLevel)
  {
    entryID, maxLevel := 0, -1;
    var rest := nodes.Keys;
    while rest != {}
      invariant rest <= nodes.Keys
      invariant forall v: Id :: v in nodes && v !in rest ==> nodes[v].level <= maxLevel
      invariant if maxLevel == -1 then rest == nodes.Keys else entryID in nodes && nodes[entryID].level == maxLevel
      decreases rest
    {
      var nid: Id :| nid in rest;
      rest := rest - {nid};
      if nodes[nid].level > maxLevel {
        entryID, maxLevel := nid, nodes[nid].level;
      }
    }
  }

  /** Takes out a node that is in the graph. */
  method RemoveNode(nodes0: Nodes, entryID0: Id, maxLevel0: int, sim: Similarity, m: nat, id: Id)
    returns (nodes: Nodes, entryID: Id, maxLevel: int)
    requires GraphOk(nodes0, m) && EntryOk(nodes0, entryID0, maxLevel0) && id in nodes0
    ensures GraphOk(nodes, m) && EntryOk(nodes, entryID, maxLevel)
    ensures entryID0 != id ==> entryID == entryID0 && maxLevel == maxLevel0
    ensures nodes.Keys == nodes0.Keys - {id}
    ensures forall v: Id :: v in nodes ==> nodes[v].vector == nodes0[v].vector && nodes[v].level == nodes0[v].level
    ensures forall l: nat :: Forgotten(nodes0, nodes, id, l) && OnlyHeirs(nodes0, nodes, id, l) && Rejoined(nodes0, nodes, m, id, l)
  {
    nodes := nodes0;
    var node := nodes0[id];
    for l := 0 to |node.friends|
      invariant Removing(nodes0, nodes, m, id, l)
    {
      ghost var nodes1 := nodes;
      var affected;
      nodes, affected := Detach(nodes, m, id, l, node.friends[l]);
      ghost var nodes2 := nodes;
      nodes := ReconnectNeighbors(nodes, sim, m, l, affected);
      LevelDone(nodes0, nodes1, nodes2, nodes, m, id, l, affected);
    }
    ghost var linked := nodes;
    nodes := map v | v in nodes && v != id :: nodes[v];
    Deleted(nodes0, linked, nodes, m, id);
    entryID, maxLevel := entryID0, maxLevel0;
    if entryID0 == id {
      if |nodes| == 0 {
        entryID, maxLevel := 0, -1;
      } else {
        entryID, maxLevel := HighestNode(nodes);
      }
    }
  }

  lemma Deleted(nodes0: Nodes, linked: Nodes, nodes: Nodes, m: nat, id: Id)
    requires id in nodes0 && GraphOk(nodes0, m) && Removing(nodes0, linked, m, id, |nodes0[id].friends|)
    requires nodes == map v | v in linked && v != id :: linked[v]
    ensures GraphOk(nodes, m) && nodes.Keys == nodes0.Keys - {id}
    ensures forall v: Id :: v in nodes ==> nodes[v].vector == nodes0[v].vector && nodes[v].level == nodes0[v].level
    ensures forall l: nat :: Forgotten(nodes0, nodes, id, l) && OnlyHeirs(nodes0, nodes, id, l) && Rejoined(nodes0, nodes, m, id, l)
  {
    forall v: Id, l: nat | v in nodes
      ensures ListOk(nodes, m, v, l)
    {
      assert ListOk(linked, m, v, l);
    }
    forall l: nat
      ensures Forgotten(nodes0, nodes, id, l) && OnlyHeirs(nodes0, nodes, id, l)
    {
      if l < |nodes0[id].friends| {
        assert Forgotten(nodes0, linked, id, l) && OnlyHeirs(nodes0, linked, id, l);
      }
    }
    forall l: nat
      ensures Rejoined(nodes0, nodes, m, id, l)
    {
      if l < |nodes0[id].friends| {
        StillRejoined(nodes0, linked, nodes, m, id, l);
      }
    }
  }

  lemma StillRejoined(nodes0: Nodes, linked: Nodes, nodes: Nodes, m: nat, id: Id, l: nat)
    requires GraphOk(nodes0, m) && id in nodes0 && Rejoined(nodes0, linked, m, id, l)
    requires forall v: Id :: v != id ==> FriendsAt(nodes, v, l) == FriendsAt(linked, v, l)
    ensures Rejoined(nodes0, nodes, m, id, l)
  {
    assert ListOk(nodes0, m, id, l);
    forall v: Id | v in Neighbours(nodes0, id, l) ensures Served(nodes, m, l, Neighbours(nodes0, id, l), v) {
      assert Served(linked, m, l, Neighbours(nodes0, id, l), v);
    }
  }
}
