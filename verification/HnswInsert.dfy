/**
 Inserting one node into the layered graph.
 */
module HnswInsert {
  import opened Collections
  import opened Walks
  import opened LayerSearch
  import opened HnswLinks

  datatype HNSWConfig = HNSWConfig(m: nat, efConstruction: int, efSearch: int, maxLevel: int)

  /** Entry point and top level fit the nodes. */
  ghost predicate EntryOk(nodes: Nodes, entryID: Id, maxLevel: int) {
    if |nodes| == 0 then entryID == 0 && maxLevel == -1
    else
      && entryID in nodes && nodes[entryID].level == maxLevel
      && forall v: Id :: v in nodes ==> nodes[v].level <= maxLevel
  }

  /** No list on level 0 names a node twice. */
  ghost predicate Neat(nodes: Nodes) {
    forall v: Id :: v in nodes ==> Distinct(FriendsAt(nodes, v, 0))
  }

  /** On level 0 every node leads to every other. */
  ghost predicate Connected(nodes: Nodes) {
    forall e: Id :: e in nodes ==> ReachSet(nodes, 0, e) == nodes.Keys
  }

  /** No node's list on level 0 is full. */
  ghost predicate Roomy(nodes: Nodes, m: nat) {
    forall v: Id :: v in nodes ==> |FriendsAt(nodes, v, 0)| < 2 * m
  }

  /** No reference to a missing node, and with two nodes or more none without links on level 0. */
  ghost predicate Whole(nodes: Nodes) {
    && NoDangling(nodes)
    && (|nodes| > 1 ==> forall v: Id :: v in nodes ==> FriendsAt(nodes, v, 0) != [])
  }

  /** A node to be inserted, and the graph it goes into. */
  datatype Insertion = Insertion(nodes: Nodes, entryID: Id, maxLevel: int, sim: Similarity, config: HNSWConfig,
                                 id: Id, vector: Vec, level: nat) {
    ghost predicate Valid() {
      GraphOk(nodes, config.m) && EntryOk(nodes, entryID, maxLevel) && id !in nodes
    }

    /** The highest level the node is linked on. */
    function Top(): int {
      if level < maxLevel then level else maxLevel
    }
  }

  /** The first neighbour, if there is one. */
  function FirstOr(list: seq<Id>, currID: Id): Id {
    if |list| > 0 then list[0] else currID
  }

  /** The search of the top level starts where the descent ends, those below at the first neighbour one level up. */
  ghost predicate StartOk(w: Insertion, lists: seq<seq<Id>>, starts: seq<Id>, l: nat)
    requires |lists| == |starts| == w.level + 1 && l <= w.Top()
  {
    if l == w.Top() then DescendsTo(w.nodes, w.sim, w.vector, w.entryID, w.maxLevel, w.level, starts[l])
    else starts[l] == if |lists[l + 1]| > 0 then lists[l + 1][0] else starts[l + 1]
  }

  /** `list` is chosen from what a search of level `l` finds from `start`. */
  ghost predicate ListChosen(w: Insertion, l: nat, start: Id, list: seq<Id>) {
    && start in w.nodes
    && exists neighbors: seq<Id>, examined: set<Id> ::
         && FoundOnLevel(w.nodes, w.sim, w.vector, start, w.config.efConstruction, l, neighbors, examined)
         && Chosen(w.nodes, w.sim, w.vector, neighbors, w.config.m, list)
  }

  /** On level `l` the nodes in the new node's list are linked back to it, and the others are as before. */
  ghost predicate LevelLinked(w: Insertion, nodes: Nodes, l: nat, list: seq<Id>) {
    && (forall v: Id :: v in list && HasLevel(w.nodes, v, l) ==>
                          LinkedTo(w.nodes, w.sim, w.config.m, v, l, w.id, FriendsAt(nodes, v, l)))
    && (forall v: Id :: v in w.nodes && !(v in list && HasLevel(w.nodes, v, l)) ==> FriendsAt(nodes, v, l) == FriendsAt(w.nodes, v, l))
  }

  /** Level `l` once the new node, with these lists, has been linked on it; above the top nothing is linked. */
  ghost predicate LevelOk(w: Insertion, nodes: Nodes, lists: seq<seq<Id>>, starts: seq<Id>, l: nat)
    requires |lists| == |starts| == w.level + 1
  {
    if l <= w.Top() then
      && StartOk(w, lists, starts, l) && ListChosen(w, l, starts[l], lists[l]) && LevelLinked(w, nodes, l, lists[l])
    else
      && (l <= w.level ==> lists[l] == [])
      && forall v: Id :: v in w.nodes ==> FriendsAt(nodes, v, l) == FriendsAt(w.nodes, v, l)
  }

  /** While the levels above `l` have been linked and those up to `l` have not. */
  ghost predicate Linking(w: Insertion, nodes: Nodes, lists: seq<seq<Id>>, starts: seq<Id>, l: int) {
    && |lists| == |starts| == w.level + 1
    && SameShape(w.nodes, nodes) && GraphOk(nodes, w.config.m)
    && (forall v: Id, k: nat :: k <= l ==> FriendsAt(nodes, v, k) == FriendsAt(w.nodes, v, k))
    && (forall k: nat :: k > l ==> LevelOk(w, nodes, lists, starts, k))
  }

  /** A graph that has gained the new node, linked on each of its levels as the insertion links it. */
  ghost predicate Linked(w: Insertion, nodes: Nodes, starts: seq<Id>) {
    && Inserted(w.nodes, nodes, w.id, w.vector, w.level)
    && |nodes[w.id].friends| == |starts| == w.level + 1
    && forall l: nat :: LevelOk(w, nodes, nodes[w.id].friends, starts, l)
  }

  /** Chooses the new node's neighbours on one level and links them back. */
  method LinkLevel(ghost w: Insertion, nodes0: Nodes, sim: Similarity, config: HNSWConfig, id: Id, vector: Vec, l: nat, currID: Id)
    returns (nodes: Nodes, selected: seq<Id>)
    requires w.sim == sim && w.config == config && w.id == id && w.vector == vector && id !in w.nodes
    requires GraphOk(nodes0, config.m) && SameShape(w.nodes, nodes0) && currID in nodes0
    requires forall v: Id :: FriendsAt(nodes0, v, l) == FriendsAt(w.nodes, v, l)
    ensures BackLinked(nodes0, nodes, sim, config.m, id, l, selected)
    ensures ListChosen(w, l, currID, selected)
  {
    hide GraphOk, BackLinked;
    var neighbors, examined := SearchLayer(nodes0, sim, vector, currID, config.efConstruction, l);
    selected := SelectNeighbors(nodes0, sim, vector, neighbors, config.m);
    FoundSame(w.nodes, nodes0, sim, vector, currID, config.efConstruction, l, neighbors, examined);
    ChosenSame(w.nodes, nodes0, sim, vector, neighbors, config.m, selected);
    ListIsLive(w, l, currID, selected);
    nodes := ConnectBack(nodes0, sim, config.m, id, l, selected);
  }

  /** The list chosen on a level names distinct live nodes, at least one if any may be named. */
  lemma ListIsLive(w: Insertion, l: nat, start: Id, list: seq<Id>)
    requires ListChosen(w, l, start, list)
    ensures Distinct(list) && |list| <= w.config.m && (w.config.m >= 1 ==> |list| > 0)
    ensures forall f :: f in list ==> f in w.nodes
  {
    var neighbors: seq<Id>, examined: set<Id> :|
      && FoundOnLevel(w.nodes, w.sim, w.vector, start, w.config.efConstruction, l, neighbors, examined)
      && Chosen(w.nodes, w.sim, w.vector, neighbors, w.config.m, list);
    LiveAll(w.nodes, neighbors);
  }

  /** With room for all reachable nodes, the list holds the closest of them, as many as fit. */
  lemma ListIsClosest(w: Insertion, l: nat, start: Id, list: seq<Id>)
    requires ListChosen(w, l, start, list) && |ReachSet(w.nodes, l, start)| <= w.config.efConstruction
    ensures Members(list) <= ReachSet(w.nodes, l, start) && Distinct(list)
    ensures |list| == if w.config.m <= |ReachSet(w.nodes, l, start)| then w.config.m else |ReachSet(w.nodes, l, start)|
    ensures forall u: Id, v: Id :: u in ReachSet(w.nodes, l, start) && u !in list && v in list ==>
                                     Near(w.nodes, w.sim, w.vector, u) <= Near(w.nodes, w.sim, w.vector, v)
  {
    var reach := ReachSet(w.nodes, l, start);
    var neighbors: seq<Id>, examined: set<Id> :|
      && FoundOnLevel(w.nodes, w.sim, w.vector, start, w.config.efConstruction, l, neighbors, examined)
      && Chosen(w.nodes, w.sim, w.vector, neighbors, w.config.m, list);
    LiveAll(w.nodes, neighbors);
    assert Members(neighbors) == reach;
    DistinctSize(neighbors);
  }

  lemma LinkedOneLevel(w: Insertion, nodes: Nodes, nodes': Nodes, lists: seq<seq<Id>>, starts: seq<Id>, l: nat, currID: Id, selected: seq<Id>)
    requires w.Valid() && l <= w.Top() && Linking(w, nodes, lists, starts, l)
    requires BackLinked(nodes, nodes', w.sim, w.config.m, w.id, l, selected) && ListChosen(w, l, currID, selected)
    requires StartOk(w, lists, starts[l := currID], l)
    ensures Linking(w, nodes', lists[l := selected], starts[l := currID], l - 1)
  {
    hide ListChosen, LinkedTo, DescendsTo, LevelLinked;
    var lists', starts' := lists[l := selected], starts[l := currID];
    forall k: nat | k > l - 1 ensures LevelOk(w, nodes', lists', starts', k) {
      if k == l {
        LevelNowLinked(w, nodes, nodes', l, selected);
      } else {
        assert LevelOk(w, nodes, lists, starts, k);
        OtherLevelStays(w, nodes, nodes', lists, starts, l, currID, selected, k);
      }
    }
  }

  lemma LevelNowLinked(w: Insertion, nodes: Nodes, nodes': Nodes, l: nat, selected: seq<Id>)
    requires SameShape(w.nodes, nodes) && BackLinked(nodes, nodes', w.sim, w.config.m, w.id, l, selected)
    requires forall v: Id :: FriendsAt(nodes, v, l) == FriendsAt(w.nodes, v, l)
    ensures LevelLinked(w, nodes', l, selected)
  {
    hide LinkedTo;
    forall v: Id | v in selected && HasLevel(w.nodes, v, l)
      ensures LinkedTo(w.nodes, w.sim, w.config.m, v, l, w.id, FriendsAt(nodes', v, l))
    {
      LinkedToSame(w.nodes, nodes, w.sim, w.config.m, v, l, w.id, FriendsAt(nodes', v, l));
    }
  }

  lemma OtherLevelStays(w: Insertion, nodes: Nodes, nodes': Nodes, lists: seq<seq<Id>>, starts: seq<Id>, l: nat, currID: Id,
                        selected: seq<Id>, k: nat)
    requires |lists| == |starts| == w.level + 1 && l <= w.Top() && k > l && LevelOk(w, nodes, lists, starts, k)
    requires forall v: Id :: FriendsAt(nodes', v, k) == FriendsAt(nodes, v, k)
    ensures LevelOk(w, nodes', lists[l := selected], starts[l := currID], k)
  {
    hide ListChosen, LinkedTo, DescendsTo;
  }

  /** Apart from links, the graph gains exactly one node. */
  ghost predicate Inserted(nodes0: Nodes, nodes: Nodes, id: Id, vector: Vec, level: nat) {
    && nodes.Keys == nodes0.Keys + {id}
    && nodes[id].vector == vector && nodes[id].level == level
    && forall v: Id :: v in nodes0 ==> nodes[v].vector == nodes0[v].vector && nodes[v].level == nodes0[v].level
  }

  /** Adds a node that is not yet in the graph. */
  method InsertNode(nodes0: Nodes, entryID0: Id, maxLevel0: int, sim: Similarity, config: HNSWConfig,
                    id: Id, vector: Vec, level: nat)
    returns (nodes: Nodes, entryID: Id, maxLevel: int, ghost starts: seq<Id>)
    requires GraphOk(nodes0, config.m) && EntryOk(nodes0, entryID0, maxLevel0) && id !in nodes0
    ensures GraphOk(nodes, config.m) && EntryOk(nodes, entryID, maxLevel)
    ensures entryID == if level > maxLevel0 then id else entryID0
    ensures Linked(Insertion(nodes0, entryID0, maxLevel0, sim, config, id, vector, level), nodes, starts)
  {
    hide Linking, Linked, GraphOk, StartOk, DescendsTo, EntryOk, ListChosen, BackLinked, SameShape, FriendsAt, FirstOr;
    ghost var w := Insertion(nodes0, entryID0, maxLevel0, sim, config, id, vector, level);
    var lists := seq(level + 1, i => []);
    starts := seq(level + 1, i => id);
    if |nodes0| == 0 {
      nodes := map[id := Node(id, vector, level, lists)];
      FirstNode(w, lists, starts);
      return nodes, id, level, starts;
    }
    EntryLives(nodes0, entryID0, maxLevel0);
    var currID := DescendAbove(nodes0, entryID0, maxLevel0, sim, vector, level);
    var l := if level < maxLevel0 then level as int else maxLevel0;
    nodes := nodes0;
    NothingLinked(w, lists, starts, currID);
    while l >= 0
      invariant -1 <= l <= w.Top() && |lists| == |starts| == level + 1 && currID in nodes0
      invariant Linking(w, nodes, lists, starts, l)
      invariant l >= 0 ==> StartOk(w, lists, starts[l := currID], l)
    {
      ghost var before := nodes;
      var selected;
      StillToLink(w, nodes, lists, starts, l);
      nodes, selected := LinkLevel(w, nodes, sim, config, id, vector, l, currID);
      LinkedOneLevel(w, before, nodes, lists, starts, l, currID, selected);
      ListIsLive(w, l, currID, selected);
      lists, starts := lists[l := selected], starts[l := currID];
      FirstIsLive(w, selected, currID);
      currID := FirstOr(selected, currID);
      l := l - 1;
      NextStart(w, lists, starts, l, currID);
    }
    NodeEntered(w, nodes, lists, starts);
    nodes := nodes[id := Node(id, vector, level, lists)];
    if level > maxLevel0 {
      return nodes, id, level, starts;
    }
    return nodes, entryID0, maxLevel0, starts;
  }

  /** Descends to the level the new node is first linked on. */
  method DescendAbove(nodes0: Nodes, entryID0: Id, maxLevel0: int, sim: Similarity, vector: Vec, level: nat) returns (currID: Id)
    requires entryID0 in nodes0
    ensures currID in nodes0 && DescendsTo(nodes0, sim, vector, entryID0, maxLevel0, level, currID)
  {
    currID := entryID0;
    var top := maxLevel0;
    while top > level
      invariant currID in nodes0
      invariant forall e: Id :: DescendsTo(nodes0, sim, vector, currID, top, level, e) ==>
                                  DescendsTo(nodes0, sim, vector, entryID0, maxLevel0, level, e)
    {
      ghost var from := currID;
      currID := SearchLayerClosest(nodes0, sim, vector, currID, top);
      assert DescentStep(nodes0, sim, vector, from, top, currID);
      top := top - 1;
    }
  }

  lemma NothingLinked(w: Insertion, lists: seq<seq<Id>>, starts: seq<Id>, currID: Id)
    requires w.Valid() && |w.nodes| > 0 && |lists| == |starts| == w.level + 1 && forall k :: 0 <= k <= w.level ==> lists[k] == []
    requires DescendsTo(w.nodes, w.sim, w.vector, w.entryID, w.maxLevel, w.level, currID)
    ensures 0 <= w.Top() && Linking(w, w.nodes, lists, starts, w.Top()) && StartOk(w, lists, starts[w.Top() := currID], w.Top())
  {
  }

  lemma EntryLives(nodes: Nodes, entryID: Id, maxLevel: int)
    requires EntryOk(nodes, entryID, maxLevel) && |nodes| > 0
    ensures entryID in nodes && maxLevel >= 0
  {
  }

  lemma FirstIsLive(w: Insertion, list: seq<Id>, currID: Id)
    requires currID in w.nodes && forall f :: f in list ==> f in w.nodes
    ensures FirstOr(list, currID) in w.nodes
  {
  }

  lemma StillToLink(w: Insertion, nodes: Nodes, lists: seq<seq<Id>>, starts: seq<Id>, l: nat)
    requires Linking(w, nodes, lists, starts, l)
    ensures GraphOk(nodes, w.config.m) && SameShape(w.nodes, nodes) && nodes.Keys == w.nodes.Keys
    ensures forall v: Id :: FriendsAt(nodes, v, l) == FriendsAt(w.nodes, v, l)
  {
  }

  lemma NextStart(w: Insertion, lists: seq<seq<Id>>, starts: seq<Id>, l: int, currID: Id)
    requires |lists| == |starts| == w.level + 1 && -1 <= l < w.Top() && currID == FirstOr(lists[l + 1], starts[l + 1])
    ensures l >= 0 ==> StartOk(w, lists, starts[l := currID], l)
  {
  }

  lemma FirstNode(w: Insertion, lists: seq<seq<Id>>, starts: seq<Id>)
    requires w.Valid() && |w.nodes| == 0 && |lists| == |starts| == w.level + 1 && forall k :: 0 <= k <= w.level ==> lists[k] == []
    ensures var nodes := map[w.id := Node(w.id, w.vector, w.level, lists)];
      GraphOk(nodes, w.config.m) && EntryOk(nodes, w.id, w.level) && Linked(w, nodes, starts)
    ensures w.maxLevel == -1
  {
    var nodes := map[w.id := Node(w.id, w.vector, w.level, lists)];
    assert w.nodes == map[];
    assert forall v: Id, l: nat :: FriendsAt(nodes, v, l) == [];
  }

  /** Entering the node after all its levels have been linked. */
  lemma NodeEntered(w: Insertion, nodes: Nodes, lists: seq<seq<Id>>, starts: seq<Id>)
    requires w.Valid() && |w.nodes| > 0 && Linking(w, nodes, lists, starts, -1)
    ensures var r := nodes[w.id := Node(w.id, w.vector, w.level, lists)];
      && GraphOk(r, w.config.m) && Linked(w, r, starts)
      && (if w.level > w.maxLevel then EntryOk(r, w.id, w.level) else EntryOk(r, w.entryID, w.maxLevel))
  {
    var r := nodes[w.id := Node(w.id, w.vector, w.level, lists)];
    EnteredGraph(w, nodes, lists, starts, r);
    forall l: nat ensures LevelOk(w, r, lists, starts, l) {
      assert LevelOk(w, nodes, lists, starts, l);
      SameLevel(w, nodes, r, lists, starts, l);
    }
  }

  lemma SameLevel(w: Insertion, nodes: Nodes, r: Nodes, lists: seq<seq<Id>>, starts: seq<Id>, l: nat)
    requires |lists| == |starts| == w.level + 1 && LevelOk(w, nodes, lists, starts, l)
    requires forall v: Id :: v in w.nodes ==> FriendsAt(r, v, l) == FriendsAt(nodes, v, l)
    ensures LevelOk(w, r, lists, starts, l)
  {
    hide ListChosen, LinkedTo, StartOk;
  }

  lemma EnteredGraph(w: Insertion, nodes: Nodes, lists: seq<seq<Id>>, starts: seq<Id>, r: Nodes)
    requires w.Valid() && |w.nodes| > 0 && Linking(w, nodes, lists, starts, -1)
    requires r == nodes[w.id := Node(w.id, w.vector, w.level, lists)]
    ensures GraphOk(r, w.config.m)
  {
    hide StartOk, LevelLinked;
    forall v: Id, k: nat | v in r
      ensures ListOk(r, w.config.m, v, k)
    {
      if v != w.id {
        assert ListOk(nodes, w.config.m, v, k);
      } else if k <= w.level {
        assert LevelOk(w, nodes, lists, starts, k);
        if k <= w.Top() {
          ListIsLive(w, k, starts[k], lists[k]);
        }
      }
    }
  }
}
