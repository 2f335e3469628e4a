/**
 When a new vector cannot be found: a full neighbour is cut down before the new node is in the
 graph, so it never keeps the link to it.
 */
module HnswFindings {
  import opened Collections
  import opened Walks
  import opened LayerSearch
  import opened HnswLinks
  import opened HnswInsert
  import opened HnswGrowth

  /** A node that did not name the new one before names it afterwards exactly if the new one chose it and it had room. */
  lemma NamedExactly(w: Insertion, nodes: Nodes, starts: seq<Id>, v: Id, l: nat)
    requires w.Valid() && Linked(w, nodes, starts) && v in w.nodes && w.id !in FriendsAt(w.nodes, v, l)
    ensures w.id in FriendsAt(nodes, v, l) <==>
      v in FriendsAt(nodes, w.id, l) && HasLevel(w.nodes, v, l) && |FriendsAt(w.nodes, v, l)| < 2 * w.config.m
  {
    hide ListChosen, StartOk;
    assert LevelOk(w, nodes, nodes[w.id].friends, starts, l);
    var longer := FriendsAt(w.nodes, v, l) + [w.id];
    assert longer[|longer| - 1] == w.id;
  }

  /** The new node can be reached from another on level 0 exactly if one of the neighbours it chose had room. */
  lemma FoundExactly(w: Insertion, nodes: Nodes, starts: seq<Id>)
    requires w.Valid() && Linked(w, nodes, starts) && NoDangling(w.nodes)
    ensures (exists e: Id :: e in w.nodes && w.id in ReachSet(nodes, 0, e)) <==>
            exists v: Id :: v in FriendsAt(nodes, w.id, 0) && v in w.nodes && |FriendsAt(w.nodes, v, 0)| < 2 * w.config.m
  {
    if v: Id :| v in FriendsAt(nodes, w.id, 0) && v in w.nodes && |FriendsAt(w.nodes, v, 0)| < 2 * w.config.m {
      NamedExactly(w, nodes, starts, v, 0);
      NamedIsReached(w, nodes, v);
    } else {
      forall v: Id | v in w.nodes ensures w.id !in FriendsAt(nodes, v, 0) {
        NamedExactly(w, nodes, starts, v, 0);
      }
      forall e: Id | e in w.nodes ensures w.id !in ReachSet(nodes, 0, e) {
        UnnamedIsLost(w, nodes, e);
      }
    }
  }

  lemma NamedIsReached(w: Insertion, nodes: Nodes, v: Id)
    requires v in nodes && w.id in nodes && w.id in FriendsAt(nodes, v, 0)
    ensures w.id in ReachSet(nodes, 0, v)
  {
    ReachIsExplored(nodes, 0, v);
    assert Explored(nodes, 0, ReachSet(nodes, 0, v), v);
  }

  lemma UnnamedIsLost(w: Insertion, nodes: Nodes, e: Id)
    requires e in w.nodes && w.id !in w.nodes && nodes.Keys == w.nodes.Keys + {w.id}
    requires forall v: Id :: v in w.nodes ==> w.id !in FriendsAt(nodes, v, 0)
    ensures w.id !in ReachSet(nodes, 0, e)
  {
    if w.id in ReachSet(nodes, 0, e) {
      ReachStaysInside(LevelEdges(nodes, 0), {e}, w.nodes.Keys, w.id);
    }
  }

  // ---------------------------------------------------------------- four vectors

  /** Only the first vector is close to anything. */
  function FirstOnly(): Similarity {
    (a, b) => if b == [0] then 1.0 else 0.0
  }

  /** Three vectors as adding them in turn links them, with m of one: the first node is full. */
  function Three(): Nodes {
    map[0 := Node(0, [0], 0, [[1, 2]]), 1 := Node(1, [1], 0, [[0]]), 2 := Node(2, [2], 0, [[0]])]
  }

  function Fourth(): Insertion {
    Insertion(Three(), 0, 0, FirstOnly(), HNSWConfig(1, 10, 10, 0), 3, [3], 0)
  }

  lemma ThreeLists()
    ensures Three().Keys == {0, 1, 2} && |Three()| == 3
    ensures FriendsAt(Three(), 0, 0) == [1, 2] && FriendsAt(Three(), 1, 0) == [0] && FriendsAt(Three(), 2, 0) == [0]
    ensures forall v: Id, l: nat :: l > 0 || v > 2 ==> FriendsAt(Three(), v, l) == []
    ensures forall v: Id :: v in Three() ==> Three()[v].id == v && Three()[v].level == 0 && |Three()[v].friends| == 1
  {
    assert |Three().Keys| == |{0, 1, 2}| == 3;
  }

  lemma ThreeIsValid()
    ensures Fourth().Valid()
  {
    ThreeLists();
    hide Three;
    forall v: Id, l: nat | v in Three() ensures ListOk(Three(), 1, v, l) {
      assert v == 0 || v == 1 || v == 2;
    }
  }

  lemma ThreeIsWhole()
    ensures Whole(Three()) && Neat(Three()) && NoDangling(Three())
  {
    ThreeLists();
    hide Three;
    forall v: Id, l: nat, f: Id | v in Three() && f in FriendsAt(Three(), v, l) ensures f in Three() {
      assert l == 0 && (v == 0 || v == 1 || v == 2);
    }
    forall v: Id | v in Three() ensures FriendsAt(Three(), v, 0) != [] && Distinct(FriendsAt(Three(), v, 0)) {
      assert v == 0 || v == 1 || v == 2;
    }
  }

  lemma ThreeIsConnected()
    ensures Connected(Three())
  {
    ThreeLists();
    hide Three, Reachable, LevelEdges;
    forall e: Id | e in Three() ensures ReachSet(Three(), 0, e) == Three().Keys {
      var reach := ReachSet(Three(), 0, e);
      ReachIsExplored(Three(), 0, e);
      assert e == 0 || e == 1 || e == 2;
      assert Explored(Three(), 0, reach, e);
      assert 0 in FriendsAt(Three(), 1, 0) && 0 in FriendsAt(Three(), 2, 0);
      assert 0 in reach;
      assert Explored(Three(), 0, reach, 0);
      assert 1 in FriendsAt(Three(), 0, 0) && 2 in FriendsAt(Three(), 0, 0);
    }
  }

  function One(): Nodes {
    map[0 := Node(0, [0], 0, [[]])]
  }

  function Two(): Nodes {
    map[0 := Node(0, [0], 0, [[1]]), 1 := Node(1, [1], 0, [[0]])]
  }

  function Next(nodes: Nodes, id: Id): Insertion
    requires id < 3
  {
    Insertion(nodes, 0, 0, FirstOnly(), HNSWConfig(1, 10, 10, 0), id, [id], 0)
  }

  lemma OnlyGround(w: Insertion, nodes: Nodes, neighbors: seq<Id>)
    requires w.entryID == 0 && w.maxLevel == 0 && w.level == 0 && 0 in w.nodes
    requires FoundOnLevel(w.nodes, w.sim, w.vector, 0, w.config.efConstruction, 0, neighbors, Members(neighbors))
    requires Chosen(w.nodes, w.sim, w.vector, neighbors, w.config.m, [0])
    requires Inserted(w.nodes, nodes, w.id, w.vector, 0) && nodes[w.id].friends == [[0]]
    requires LevelLinked(w, nodes, 0, [0])
    requires forall v: Id, l: nat :: l > 0 ==> FriendsAt(nodes, v, l) == FriendsAt(w.nodes, v, l) == []
    ensures Linked(w, nodes, [0])
  {
    hide FoundOnLevel, Chosen, LevelLinked;
    assert ListChosen(w, 0, 0, [0]);
    forall l: nat ensures LevelOk(w, nodes, [[0]], [0], l) {
    }
  }

  /** Adding the first three vectors gives `Three`. */
  lemma ThreeIsGrown()
    ensures Linked(Next(One(), 1), Two(), [0])
    ensures Linked(Next(Two(), 2), Three(), [0])
  {
    SecondIsLinked();
    ThirdIsLinked();
  }

  lemma SecondIsLinked()
    ensures Linked(Next(One(), 1), Two(), [0])
  {
    var w, nodes := Next(One(), 1), Two();
    assert w.nodes.Keys == {0} && Two().Keys == {0, 1};
    ReachIsExplored(w.nodes, 0, 0);
    assert ReachSet(w.nodes, 0, 0) == {0};
    assert Members([0]) == {0};
    assert FoundOnLevel(w.nodes, w.sim, w.vector, 0, 10, 0, [0], {0});
    assert FriendsAt(w.nodes, 0, 0) + [1] == [1];
    OnlyGround(w, nodes, [0]);
  }

  lemma TwoLists()
    ensures Two().Keys == {0, 1} && FriendsAt(Two(), 0, 0) == [1] && FriendsAt(Two(), 1, 0) == [0]
    ensures forall v: Id, l: nat :: l > 0 || v > 1 ==> FriendsAt(Two(), v, l) == []
    ensures HasLevel(Two(), 0, 0)
  {
  }

  lemma TwoReach()
    ensures ReachSet(Two(), 0, 0) == {0, 1}
  {
    TwoLists();
    hide Two, Reachable, LevelEdges;
    ReachIsExplored(Two(), 0, 0);
    assert Explored(Two(), 0, ReachSet(Two(), 0, 0), 0);
    assert 1 in FriendsAt(Two(), 0, 0);
  }

  lemma TwoNear()
    ensures Near(Two(), FirstOnly(), [2], 0) == 1.0 && Near(Two(), FirstOnly(), [2], 1) == 0.0
  {
  }

  lemma PairFound(nodes: Nodes, sim: Similarity, query: Vec, a: Id, b: Id)
    requires a in nodes && b in nodes && a != b && Near(nodes, sim, query, b) <= Near(nodes, sim, query, a)
    requires ReachSet(nodes, 0, a) == {a, b}
    ensures FoundOnLevel(nodes, sim, query, a, 10, 0, [a, b], {a, b})
  {
    ReachIsExplored(nodes, 0, a);
    hide ReachSet, Near;
    var ids := [a, b];
    assert ids[0] == a && ids[1] == b;
  }

  lemma FirstOfPair(nodes: Nodes, sim: Similarity, query: Vec, a: Id, b: Id)
    requires a in nodes && b in nodes && a != b && Near(nodes, sim, query, b) <= Near(nodes, sim, query, a)
    ensures Chosen(nodes, sim, query, [a, b], 1, [a])
  {
    hide Near;
    LiveAll(nodes, [a, b]);
  }

  lemma TwoFound()
    ensures FoundOnLevel(Two(), FirstOnly(), [2], 0, 10, 0, [0, 1], Members([0, 1]))
    ensures Chosen(Two(), FirstOnly(), [2], [0, 1], 1, [0])
  {
    assert Members([0, 1]) == {0, 1};
    hide *;
    TwoLists();
    TwoReach();
    TwoNear();
    PairFound(Two(), FirstOnly(), [2], 0, 1);
    FirstOfPair(Two(), FirstOnly(), [2], 0, 1);
  }

  lemma NextIs(nodes: Nodes, id: Id)
    requires id < 3
    ensures var w := Next(nodes, id);
      && w.nodes == nodes && w.entryID == 0 && w.maxLevel == 0 && w.level == 0 && w.sim == FirstOnly()
      && w.id == id && w.vector == [id] && w.config.m == 1 && w.config.efConstruction == 10
  {
  }

  lemma ThirdLevel(w: Insertion)
    requires w.nodes == Two() && w.id == 2 && w.config.m == 1
    ensures LevelLinked(w, Three(), 0, [0])
  {
    TwoLists();
    ThreeLists();
    hide Two, Three, Chosen;
    assert FriendsAt(Two(), 0, 0) + [2] == [1, 2];
  }

  lemma ThirdIsInserted()
    ensures Inserted(Two(), Three(), 2, [2], 0) && Three()[2].friends == [[0]]
  {
    TwoLists();
    ThreeLists();
  }

  lemma ThirdIsLinked()
    ensures Linked(Next(Two(), 2), Three(), [0])
  {
    hide *;
    NextIs(Two(), 2);
    TwoLists();
    ThreeLists();
    TwoFound();
    ThirdIsInserted();
    ThirdLevel(Next(Two(), 2));
    OnlyGround(Next(Two(), 2), Three(), [0, 1]);
  }

  /** The fourth vector chooses the first node and no other. */
  lemma FourthChoosesFirst(nodes: Nodes, starts: seq<Id>)
    requires Linked(Fourth(), nodes, starts)
    ensures FriendsAt(nodes, 3, 0) == [0]
  {
    hide *;
    FourthIs();
    ChosenFromEntry(Fourth(), nodes, starts);
    ClosestIsFirst(FriendsAt(nodes, 3, 0));
  }

  /** Among nodes of level 0 the search starts at the entry point. */
  lemma ChosenFromEntry(w: Insertion, nodes: Nodes, starts: seq<Id>)
    requires Linked(w, nodes, starts) && w.level == 0 && w.maxLevel == 0
    ensures ListChosen(w, 0, w.entryID, FriendsAt(nodes, w.id, 0))
  {
    hide ListChosen, LevelLinked;
    assert LevelOk(w, nodes, nodes[w.id].friends, starts, 0);
  }

  lemma ThreeNear()
    ensures forall v: Id :: Near(Three(), FirstOnly(), [3], v) == if v == 0 then 1.0 else 0.0
  {
    ThreeLists();
  }

  lemma ClosestIsFirst(list: seq<Id>)
    requires ListChosen(Fourth(), 0, 0, list)
    ensures list == [0]
  {
    ThreeLists();
    ThreeNear();
    ThreeIsConnected();
    var w, reach := Fourth(), ReachSet(Three(), 0, 0);
    assert w.nodes == Three() && w.sim == FirstOnly() && w.vector == [3] && w.config.m == 1 && w.config.efConstruction == 10;
    assert reach == {0, 1, 2} && |reach| == 3;
    hide *;
    ListIsClosest(w, 0, 0, list);
    assert |list| == 1;
    OnlyEntry(list, Near(Three(), FirstOnly(), [3], 0) > Near(Three(), FirstOnly(), [3], list[0]));
  }

  lemma OnlyEntry(list: seq<Id>, closer: bool)
    requires |list| == 1 && (list[0] != 0 ==> closer) && (0 !in list ==> !closer)
    ensures list == [0]
  {
  }

  lemma NoRoomIsLost(w: Insertion, nodes: Nodes, starts: seq<Id>)
    requires w.Valid() && Linked(w, nodes, starts) && NoDangling(w.nodes)
    requires forall v: Id :: v in FriendsAt(nodes, w.id, 0) ==> |FriendsAt(w.nodes, v, 0)| >= 2 * w.config.m
    ensures forall e: Id :: e in w.nodes ==> w.id !in ReachSet(nodes, 0, e)
  {
    FoundExactly(w, nodes, starts);
  }

  /** However the fourth vector is added, no search that starts elsewhere reaches it. */
  lemma FourthIsLost(nodes: Nodes, starts: seq<Id>)
    requires Linked(Fourth(), nodes, starts)
    ensures Fourth().Valid() && Whole(Three()) && Neat(Three()) && Connected(Three())
    ensures forall e: Id :: e in Three() ==> 3 in nodes && 3 !in ReachSet(nodes, 0, e)
  {
    hide *;
    FourthIs();
    ThreeLists();
    ThreeIsValid();
    ThreeIsWhole();
    ThreeIsConnected();
    FourthChoosesFirst(nodes, starts);
    KeysGrow(Fourth(), nodes, starts);
    NoRoomIsLost(Fourth(), nodes, starts);
  }

  lemma FourthIs()
    ensures Fourth().nodes == Three() && Fourth().config.m == 1 && Fourth().id == 3
    ensures Fourth().level == 0 && Fourth().maxLevel == 0 && Fourth().entryID == 0
  {
  }
}
