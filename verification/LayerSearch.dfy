/**
 Searching one layer of the graph: greedy descent and best-first search.
 */
module LayerSearch {
  import opened Collections
  import opened Walks
  import opened PriorityQueues

  type Similarity = (Vec, Vec) -> real

  datatype Node = Node(id: Id, vector: Vec, level: nat, friends: seq<seq<Id>>)

  type Nodes = map<Id, Node>

  /** The similarity of the query to a live node. */
  function Near(nodes: Nodes, sim: Similarity, query: Vec, v: Id): real {
    if v in nodes then sim(query, nodes[v].vector) else 0.0
  }

  function FriendsAt(nodes: Nodes, v: Id, level: nat): seq<Id> {
    if v in nodes && level < |nodes[v].friends| then nodes[v].friends[level] else []
  }

  /** Links of one level between live nodes; references to removed nodes do not count. */
  ghost function LevelEdges(nodes: Nodes, level: nat): Edges {
    set a, b | a in nodes && b in FriendsAt(nodes, a, level) && b in nodes :: (a, b)
  }

  ghost function ReachSet(nodes: Nodes, level: nat, entryID: Id): set<Id> {
    set v | v in nodes && Reachable(LevelEdges(nodes, level), {entryID}, v)
  }

  /** No live friend on the level is closer to the query. */
  ghost predicate LocallyClosest(nodes: Nodes, sim: Similarity, query: Vec, v: Id, level: nat) {
    forall f: Id :: f in FriendsAt(nodes, v, level) && f in nodes ==>
                      Near(nodes, sim, query, f) <= Near(nodes, sim, query, v)
  }

  ghost function Closer(nodes: Nodes, sim: Similarity, query: Vec, d: real): set<Id> {
    set v | v in nodes && Near(nodes, sim, query, v) > d
  }

  lemma CloserShrinks(nodes: Nodes, sim: Similarity, query: Vec, d: real, v: Id)
    requires v in nodes && Near(nodes, sim, query, v) > d
    ensures Closer(nodes, sim, query, Near(nodes, sim, query, v)) < Closer(nodes, sim, query, d)
  {
    assert v !in Closer(nodes, sim, query, Near(nodes, sim, query, v));
  }

  /** Greedy descent on one level: moves to ever closer friends until none is closer. */
  method SearchLayerClosest(nodes: Nodes, sim: Similarity, query: Vec, entryID: Id, level: nat) returns (currID: Id)
    requires entryID in nodes
    ensures currID in nodes && LocallyClosest(nodes, sim, query, currID, level)
    ensures Near(nodes, sim, query, currID) >= Near(nodes, sim, query, entryID)
    ensures currID in ReachSet(nodes, level, entryID)
  {
    currID := entryID;
    ReachStart(LevelEdges(nodes, level), {entryID}, entryID);
    var changed := true;
    while changed
      invariant currID in nodes && currID in ReachSet(nodes, level, entryID)
      invariant Near(nodes, sim, query, currID) >= Near(nodes, sim, query, entryID)
      invariant !changed ==> LocallyClosest(nodes, sim, query, currID, level)
      decreases Closer(nodes, sim, query, Near(nodes, sim, query, currID)), if changed then 1 else 0
    {
      var best := BestFriend(nodes, sim, query, currID, level);
      changed := best != currID;
      if changed {
        CloserShrinks(nodes, sim, query, Near(nodes, sim, query, currID), best);
        ReachStep(LevelEdges(nodes, level), {entryID}, currID, best);
      }
      currID := best;
    }
  }

  /**
   A descent from `start` on the level `top`, one level at a time, to `end` on the level `bottom`: on
   each level above that to a reachable node, no further away, that none of its friends there beats.
   */
  ghost predicate DescendsTo(nodes: Nodes, sim: Similarity, query: Vec, start: Id, top: int, bottom: nat, end: Id)
    decreases top
  {
    if top <= bottom then end == start
    else
      exists mid: Id :: DescentStep(nodes, sim, query, start, top, mid) && DescendsTo(nodes, sim, query, mid, top - 1, bottom, end)
  }

  ghost predicate DescentStep(nodes: Nodes, sim: Similarity, query: Vec, start: Id, level: nat, end: Id) {
    && end in nodes && LocallyClosest(nodes, sim, query, end, level)
    && Near(nodes, sim, query, end) >= Near(nodes, sim, query, start)
    && end in ReachSet(nodes, level, start)
  }

  lemma {:induction false} DescentComesCloser(nodes: Nodes, sim: Similarity, query: Vec, start: Id, top: int, bottom: nat, end: Id)
    requires start in nodes && DescendsTo(nodes, sim, query, start, top, bottom, end)
    ensures end in nodes && Near(nodes, sim, query, end) >= Near(nodes, sim, query, start)
    ensures top > bottom ==> LocallyClosest(nodes, sim, query, end, bottom + 1)
    decreases top
  {
    if top > bottom {
      var mid: Id :| DescentStep(nodes, sim, query, start, top, mid) && DescendsTo(nodes, sim, query, mid, top - 1, bottom, end);
      DescentComesCloser(nodes, sim, query, mid, top - 1, bottom, end);
    }
  }

  /** One pass over a node's friends, keeping the closest seen so far. */
  method BestFriend(nodes: Nodes, sim: Similarity, query: Vec, nodeID: Id, level: nat) returns (currID: Id)
    requires nodeID in nodes
    ensures currID in nodes
    ensures currID == nodeID || (currID in FriendsAt(nodes, nodeID, level) && Near(nodes, sim, query, currID) > Near(nodes, sim, query, nodeID))
    ensures currID == nodeID ==> LocallyClosest(nodes, sim, query, nodeID, level)
  {
    currID := nodeID;
    var currDist := Near(nodes, sim, query, nodeID);
    var friends := FriendsAt(nodes, nodeID, level);
    for k := 0 to |friends|
      invariant currID in nodes && currDist == Near(nodes, sim, query, currID)
      invariant currID == nodeID || (currID in friends && currDist > Near(nodes, sim, query, nodeID))
      invariant forall j :: 0 <= j < k && friends[j] in nodes ==> Near(nodes, sim, query, friends[j]) <= currDist
    {
      if friends[k] in nodes {
        var dist := Near(nodes, sim, query, friends[k]);
        if dist > currDist {
          currID, currDist := friends[k], dist;
        }
      }
    }
  }

  function ItemOf(nodes: Nodes, sim: Similarity, query: Vec, v: Id): PqItem {
    PqItem(v, Near(nodes, sim, query, v))
  }

  /** The bag holds exactly one scored item for each id of `ids`. */
  ghost predicate Keeps(bag: multiset<PqItem>, nodes: Nodes, sim: Similarity, query: Vec, ids: set<Id>) {
    forall p: PqItem :: bag[p] == if p.id in ids && p == ItemOf(nodes, sim, query, p.id) then 1 else 0
  }

  /** All live friends of `v` have been examined. */
  ghost predicate Explored(nodes: Nodes, level: nat, examined: set<Id>, v: Id) {
    forall f: Id :: f in FriendsAt(nodes, v, level) && f in nodes ==> f in examined
  }

  /** What the search is about: fixed while it runs. */
  datatype Quest = Quest(nodes: Nodes, sim: Similarity, query: Vec, entryID: Id, ef: int, level: nat, ghost reach: set<Id>) {
    ghost predicate Valid() {
      && entryID in nodes && entryID in reach && reach <= nodes.Keys
      && forall a: Id :: a in reach ==> Explored(nodes, level, reach, a)
    }

    function Bound(): int {
      if ef > 1 then ef else 1
    }
  }

  /** The kept results: scored, no more than allowed, their root at least as close as anything examined. */
  ghost predicate ResultOk(q: Quest, examined: set<Id>, items: seq<PqItem>, kept: set<Id>) {
    && kept <= examined && |items| == |kept| && 1 <= |items| <= q.Bound()
    && Keeps(multiset(items), q.nodes, q.sim, q.query, kept)
    && RootMax(items)
    && forall x: Id :: x in examined ==> Near(q.nodes, q.sim, q.query, x) <= items[0].priority
  }

  ghost predicate CandidatesOk(q: Quest, examined: set<Id>, items: seq<PqItem>, open: set<Id>) {
    && open <= examined && |items| == |open|
    && Keeps(multiset(items), q.nodes, q.sim, q.query, open)
    && Heap(items)
  }

  /** While nothing had to be dropped, everything examined is kept. */
  ghost predicate NothingDropped(q: Quest, examined: set<Id>, kept: set<Id>) {
    |q.reach| <= q.ef ==> kept == examined
  }

  /**
   Kept nodes that are not open have had their friends examined, and so have all examined ones
   that are not open unless something was dropped.
   */
  ghost predicate Frontier(q: Quest, examined: set<Id>, kept: set<Id>, open: set<Id>) {
    && (forall x: Id :: x in kept && x !in open ==> Explored(q.nodes, q.level, examined, x))
    && (|q.reach| <= q.ef ==> forall x: Id :: x in examined && x !in open ==> Explored(q.nodes, q.level, examined, x))
    && (Explored(q.nodes, q.level, examined, q.entryID) || (examined == {q.entryID} && open == {q.entryID}))
  }

  lemma KeepsRemove(bag: multiset<PqItem>, nodes: Nodes, sim: Similarity, query: Vec, ids: set<Id>, p: PqItem)
    requires Keeps(bag, nodes, sim, query, ids) && p in bag
    ensures p.id in ids && p == ItemOf(nodes, sim, query, p.id)
    ensures Keeps(bag - multiset{p}, nodes, sim, query, ids - {p.id})
  {
  }

  lemma KeepsAdd(bag: multiset<PqItem>, nodes: Nodes, sim: Similarity, query: Vec, ids: set<Id>, v: Id)
    requires Keeps(bag, nodes, sim, query, ids) && v !in ids
    ensures Keeps(bag + multiset{ItemOf(nodes, sim, query, v)}, nodes, sim, query, ids + {v})
  {
  }

  /** Keeping one more result. */
  method Keep(q: Quest, result: PriorityQueue, ghost examined: set<Id>, ghost kept: set<Id>, v: Id) returns (ghost kept': set<Id>)
    requires ResultOk(q, examined, result.items, kept)
    requires v in q.nodes && v !in examined
    requires |result.items| < q.ef || Near(q.nodes, q.sim, q.query, v) > result.items[0].priority
    modifies result
    ensures ResultOk(q, examined + {v}, result.items, kept')
    ensures kept' <= kept + {v}
    ensures |old(result.items)| < q.ef ==> kept' == kept + {v}
  {
    ghost var before := result.items;
    KeepsAdd(multiset(before), q.nodes, q.sim, q.query, kept, v);
    result.Push(ItemOf(q.nodes, q.sim, q.query, v));
    kept' := kept + {v};
    ghost var pushed := result.items;
    PushedTop(q, examined, before, pushed, v);
    if |result.items| > q.ef {
      var worst := result.PopWorst();
      KeepsRemove(multiset(pushed), q.nodes, q.sim, q.query, kept', worst);
      kept' := kept' - {worst.id};
      WorstGone(pushed, result.items, worst);
    }
  }

  lemma PushedTop(q: Quest, examined: set<Id>, before: seq<PqItem>, pushed: seq<PqItem>, v: Id)
    requires |before| > 0 && multiset(pushed) == multiset(before) + multiset{ItemOf(q.nodes, q.sim, q.query, v)} && RootMax(pushed)
    requires forall x: Id :: x in examined ==> Near(q.nodes, q.sim, q.query, x) <= before[0].priority
    ensures |pushed| == |before| + 1
    ensures forall x: Id :: x in examined + {v} ==> Near(q.nodes, q.sim, q.query, x) <= pushed[0].priority
  {
    assert |multiset(pushed)| == |multiset(before)| + 1;
    assert before[0] in multiset(pushed) && ItemOf(q.nodes, q.sim, q.query, v) in multiset(pushed);
    assert before[0] in pushed && ItemOf(q.nodes, q.sim, q.query, v) in pushed;
  }

  /** Dropping a least item does not lower the root. */
  lemma WorstGone(pushed: seq<PqItem>, items: seq<PqItem>, worst: PqItem)
    requires |pushed| > 1 && worst in pushed && multiset(items) == multiset(pushed) - multiset{worst}
    requires forall p :: p in pushed ==> worst.priority <= p.priority
    requires RootMax(pushed) && RootMax(items)
    ensures |items| == |pushed| - 1 && items[0].priority == pushed[0].priority
  {
    assert items[0] in multiset(items);
    if pushed[0] != worst {
      assert pushed[0] in items;
    }
  }

  /** Looks at one friend of the current node: kept and queued, or passed over. */
  method Examine(q: Quest, candidates: PriorityQueue, result: PriorityQueue, ghost examined: set<Id>, ghost kept: set<Id>,
                 ghost open: set<Id>, v: Id)
    returns (ghost kept': set<Id>, ghost open': set<Id>)
    requires candidates != result
    requires ResultOk(q, examined, result.items, kept) && CandidatesOk(q, examined, candidates.items, open)
    requires NothingDropped(q, examined, kept)
    requires v in q.nodes && v in q.reach && v !in examined && examined <= q.reach
    modifies candidates, result
    ensures ResultOk(q, examined + {v}, result.items, kept') && CandidatesOk(q, examined + {v}, candidates.items, open')
    ensures NothingDropped(q, examined + {v}, kept')
    ensures open <= open' <= open + {v} && (|q.reach| <= q.ef ==> v in open')
    ensures kept' <= kept + open'
  {
    var neighborDist := Near(q.nodes, q.sim, q.query, v);
    var worst := result.Peek();
    SmallerThanReach(q.reach, examined, v);
    kept', open' := kept, open;
    if |result.items| < q.ef || neighborDist > worst.priority {
      ghost var before := candidates.items;
      candidates.Push(PqItem(v, neighborDist));
      assert |multiset(candidates.items)| == |multiset(before)| + 1;
      open' := open + {v};
      kept' := Keep(q, result, examined, kept, v);
    }
  }

  lemma SmallerThanReach(reach: set<Id>, examined: set<Id>, v: Id)
    requires examined <= reach && v in reach && v !in examined
    ensures |examined| < |reach|
  {
    assert reach == examined + {v} + (reach - examined - {v});
  }

  /** State while the friends of one node are looked at. */
  ghost predicate Expanding(q: Quest, examined: set<Id>, cands: seq<PqItem>, items: seq<PqItem>, kept: set<Id>, open: set<Id>) {
    && ResultOk(q, examined, items, kept) && CandidatesOk(q, examined, cands, open)
    && NothingDropped(q, examined, kept) && examined <= q.reach
  }

  /** Growth of the sets: what is newly kept is open, and so is all that is new unless something was dropped. */
  ghost predicate Grows(q: Quest, examined0: set<Id>, kept0: set<Id>, open0: set<Id>, cands0: seq<PqItem>,
                        examined: set<Id>, kept: set<Id>, open: set<Id>, cands: seq<PqItem>) {
    && examined0 <= examined && open0 <= open && kept <= kept0 + open
    && (|q.reach| <= q.ef ==> examined - examined0 <= open)
    && (examined == examined0 ==> cands == cands0)
  }

  lemma OneMoreVisited(visited: set<Id>, live: set<Id>, v: Id)
    requires v !in visited
    ensures (visited + {v}) * live == (if v in live then visited * live + {v} else visited * live)
    ensures v !in visited * live
  {
  }

  /** Marks one friend visited and, if it is live, examines it. */
  method VisitFriend(q: Quest, candidates: PriorityQueue, result: PriorityQueue, visited0: set<Id>,
                     ghost kept0: set<Id>, ghost open0: set<Id>, neighborID: Id)
    returns (visited: set<Id>, ghost kept: set<Id>, ghost open: set<Id>)
    requires candidates != result && (neighborID in q.nodes ==> neighborID in q.reach)
    requires Expanding(q, visited0 * q.nodes.Keys, candidates.items, result.items, kept0, open0)
    modifies candidates, result
    ensures visited == visited0 + {neighborID}
    ensures Expanding(q, visited * q.nodes.Keys, candidates.items, result.items, kept, open)
    ensures Grows(q, visited0 * q.nodes.Keys, kept0, open0, old(candidates.items), visited * q.nodes.Keys, kept, open, candidates.items)
  {
    hide ResultOk, CandidatesOk, NothingDropped, Keeps, Heap, RootMax, Near;
    visited, kept, open := visited0, kept0, open0;
    ghost var examined := visited0 * q.nodes.Keys;
    if neighborID in visited0 {
      return;
    }
    visited := visited0 + {neighborID};
    OneMoreVisited(visited0, q.nodes.Keys, neighborID);
    if neighborID in q.nodes {
      kept, open := Examine(q, candidates, result, examined, kept, open, neighborID);
    }
  }

  /** Looks at every friend of the current node that has not been visited. */
  method ExploreFriends(q: Quest, candidates: PriorityQueue, result: PriorityQueue, visited0: set<Id>,
                        ghost kept0: set<Id>, ghost open0: set<Id>, curr: Id)
    returns (visited: set<Id>, ghost kept: set<Id>, ghost open: set<Id>)
    requires candidates != result && q.Valid() && curr in q.reach
    requires Expanding(q, visited0 * q.nodes.Keys, candidates.items, result.items, kept0, open0)
    modifies candidates, result
    ensures Expanding(q, visited * q.nodes.Keys, candidates.items, result.items, kept, open)
    ensures Grows(q, visited0 * q.nodes.Keys, kept0, open0, old(candidates.items), visited * q.nodes.Keys, kept, open, candidates.items)
    ensures Explored(q.nodes, q.level, visited * q.nodes.Keys, curr)
  {
    hide Expanding, FriendsAt, Explored, Quest.Valid;
    visited, kept, open := visited0, kept0, open0;
    var friends := FriendsAt(q.nodes, curr, q.level);
    FriendsInReach(q, curr);
    for k := 0 to |friends|
      invariant Expanding(q, visited * q.nodes.Keys, candidates.items, result.items, kept, open)
      invariant Grows(q, visited0 * q.nodes.Keys, kept0, open0, old(candidates.items), visited * q.nodes.Keys, kept, open, candidates.items)
      invariant forall j :: 0 <= j < k ==> friends[j] in visited
    {
      ghost var examined1, open1, cands1 := visited * q.nodes.Keys, open, candidates.items;
      visited, kept, open := VisitFriend(q, candidates, result, visited, kept, open, friends[k]);
    }
    NowExplored(q, curr, visited);
  }

  lemma FriendsInReach(q: Quest, curr: Id)
    requires q.Valid() && curr in q.reach
    ensures forall k :: 0 <= k < |FriendsAt(q.nodes, curr, q.level)| && FriendsAt(q.nodes, curr, q.level)[k] in q.nodes ==>
              FriendsAt(q.nodes, curr, q.level)[k] in q.reach
  {
  }

  lemma NowExplored(q: Quest, curr: Id, visited: set<Id>)
    requires forall j :: 0 <= j < |FriendsAt(q.nodes, curr, q.level)| ==> FriendsAt(q.nodes, curr, q.level)[j] in visited
    ensures Explored(q.nodes, q.level, visited * q.nodes.Keys, curr)
  {
  }

  /** Reaching further than an explored, closed set is impossible. */
  lemma ExploredHoldsReach(nodes: Nodes, level: nat, entryID: Id, examined: set<Id>)
    requires entryID in examined && forall x: Id :: x in examined ==> Explored(nodes, level, examined, x)
    ensures ReachSet(nodes, level, entryID) <= examined
  {
    var edges := LevelEdges(nodes, level);
    forall v: Id | v in ReachSet(nodes, level, entryID)
      ensures v in examined
    {
      ReachStaysInside(edges, {entryID}, examined, v);
    }
  }

  lemma ReachIsExplored(nodes: Nodes, level: nat, entryID: Id)
    requires entryID in nodes
    ensures entryID in ReachSet(nodes, level, entryID)
    ensures forall a: Id :: a in ReachSet(nodes, level, entryID) ==> Explored(nodes, level, ReachSet(nodes, level, entryID), a)
  {
    var edges := LevelEdges(nodes, level);
    ReachStart(edges, {entryID}, entryID);
    forall a: Id, f: Id | a in ReachSet(nodes, level, entryID) && f in FriendsAt(nodes, a, level) && f in nodes
      ensures f in ReachSet(nodes, level, entryID)
    {
      ReachStep(edges, {entryID}, a, f);
    }
  }

  /** Between two rounds of the search. */
  ghost predicate Searching(q: Quest, examined: set<Id>, cands: seq<PqItem>, items: seq<PqItem>, kept: set<Id>, open: set<Id>) {
    && ResultOk(q, examined, items, kept) && CandidatesOk(q, examined, cands, open)
    && NothingDropped(q, examined, kept) && Frontier(q, examined, kept, open)
    && q.entryID in examined && examined <= q.reach
  }

  /** What the search ends with. */
  ghost predicate Finished(q: Quest, examined: set<Id>, items: seq<PqItem>, kept: set<Id>) {
    && ResultOk(q, examined, items, kept)
    && q.entryID in examined && examined <= q.reach
    && Explored(q.nodes, q.level, examined, q.entryID) && Explored(q.nodes, q.level, examined, items[0].id)
    && (|q.reach| <= q.ef ==> kept == q.reach)
  }

  /** The first result, once it is no candidate any more, has had its friends examined. */
  lemma RootIsExplored(q: Quest, examined: set<Id>, cands: seq<PqItem>, items: seq<PqItem>, kept: set<Id>, open: set<Id>)
    requires Searching(q, examined, cands, items, kept, open) && forall p :: p in cands ==> p.priority < items[0].priority
    ensures Explored(q.nodes, q.level, examined, items[0].id)
  {
    var root := items[0];
    assert root in multiset(items);
    assert root.id in open ==> root in multiset(cands);
  }

  /** Stopping early loses nothing if enough results are kept. */
  lemma StopEarly(q: Quest, examined: set<Id>, cands: seq<PqItem>, items: seq<PqItem>, kept: set<Id>, open: set<Id>, curr: PqItem)
    requires q.Valid() && Searching(q, examined, cands, items, kept, open) && curr in cands
    requires curr.priority < items[0].priority && |items| >= q.ef
    requires forall p :: p in cands ==> p.priority <= curr.priority
    ensures Finished(q, examined, items, kept)
  {
    RootIsExplored(q, examined, cands, items, kept, open);
    if |q.reach| <= q.ef {
      assert q.reach == kept + (q.reach - kept);
    }
  }

  lemma StopEmpty(q: Quest, examined: set<Id>, items: seq<PqItem>, kept: set<Id>, open: set<Id>)
    requires q.Valid() && Searching(q, examined, [], items, kept, open)
    requires q.reach == ReachSet(q.nodes, q.level, q.entryID)
    ensures Finished(q, examined, items, kept)
  {
    RootIsExplored(q, examined, [], items, kept, open);
    if |q.reach| <= q.ef {
      ExploredHoldsReach(q.nodes, q.level, q.entryID, examined);
    }
  }

  lemma NextRound(q: Quest, examined0: set<Id>, kept0: set<Id>, open0: set<Id>, curr: Id, examined: set<Id>, kept: set<Id>, open: set<Id>)
    requires Frontier(q, examined0, kept0, open0) && curr in open0 && examined0 <= examined
    requires Explored(q.nodes, q.level, examined, curr) && kept <= kept0 + open
    requires open0 - {curr} <= open && (|q.reach| <= q.ef ==> examined - examined0 <= open)
    ensures Frontier(q, examined, kept, open)
  {
  }

  lemma FirstRound(q: Quest, cands: seq<PqItem>, items: seq<PqItem>)
    requires q.Valid()
    requires multiset(cands) == multiset{ItemOf(q.nodes, q.sim, q.query, q.entryID)} == multiset(items)
    ensures Searching(q, {q.entryID}, cands, items, {q.entryID}, {q.entryID})
  {
    assert |multiset(cands)| == 1 && |multiset(items)| == 1;
    assert items[0] in multiset(items);
  }

  /** Best-first search of one level from an entry node, keeping at most `ef` results. */
  method RunSearch(q: Quest) returns (result: PriorityQueue, ghost examined: set<Id>, ghost kept: set<Id>)
    requires q.Valid() && q.reach == ReachSet(q.nodes, q.level, q.entryID)
    ensures fresh(result) && Finished(q, examined, result.items, kept)
  {
    var candidates := new PriorityQueue();
    result := new PriorityQueue();
    var first := ItemOf(q.nodes, q.sim, q.query, q.entryID);
    var visited := {q.entryID};
    candidates.Push(first);
    result.Push(first);
    ghost var open := {q.entryID};
    kept := {q.entryID};
    examined := {q.entryID};
    FirstRound(q, candidates.items, result.items);
    var stop := false;
    while |candidates.items| > 0 && !stop
      invariant fresh(candidates) && fresh(result) && candidates != result
      invariant examined == visited * q.nodes.Keys
      invariant !stop ==> Searching(q, examined, candidates.items, result.items, kept, open)
      invariant stop ==> Finished(q, examined, result.items, kept)
      decreases if stop then 0 else 1, q.nodes.Keys - examined, |candidates.items|
    {
      stop, visited, kept, open := Round(q, candidates, result, visited, kept, open);
      examined := visited * q.nodes.Keys;
    }
    if !stop {
      StopEmpty(q, examined, result.items, kept, open);
    }
  }

  /** One round: stops early, or expands the closest candidate. */
  method Round(q: Quest, candidates: PriorityQueue, result: PriorityQueue, visited0: set<Id>,
               ghost kept0: set<Id>, ghost open0: set<Id>)
    returns (stop: bool, visited: set<Id>, ghost kept: set<Id>, ghost open: set<Id>)
    requires candidates != result && q.Valid() && |candidates.items| > 0
    requires Searching(q, visited0 * q.nodes.Keys, candidates.items, result.items, kept0, open0)
    modifies candidates, result
    ensures stop ==> Finished(q, visited * q.nodes.Keys, result.items, kept)
    ensures !stop ==> Searching(q, visited * q.nodes.Keys, candidates.items, result.items, kept, open)
    ensures visited0 * q.nodes.Keys <= visited * q.nodes.Keys <= q.nodes.Keys
    ensures visited * q.nodes.Keys == visited0 * q.nodes.Keys ==> |candidates.items| < old(|candidates.items|)
  {
    visited, kept, open := visited0, kept0, open0;
    ghost var examined0, before := visited0 * q.nodes.Keys, candidates.items;
    var curr := candidates.Pop();
    var worst := result.Peek();
    stop := curr.priority < worst.priority && |result.items| >= q.ef;
    if stop {
      StopEarly(q, examined0, before, result.items, kept, open, curr);
      return;
    }
    visited, kept, open := ExploreFriends(q, candidates, result, visited0, kept0, open0 - {curr.id}, curr.id);
    NextRound(q, examined0, kept0, open0, curr.id, visited * q.nodes.Keys, kept, open);
  }

  /** Empties the result queue, in whatever order its broken heap gives. */
  method Extract(q: Quest, result: PriorityQueue, ghost kept: set<Id>) returns (ids: seq<Id>)
    requires Keeps(multiset(result.items), q.nodes, q.sim, q.query, kept) && |result.items| == |kept|
    modifies result
    ensures |ids| == |kept| && Distinct(ids) && forall v: Id :: v in ids <==> v in kept
    ensures old(result.items) != [] ==> |ids| > 0 && ids[0] == old(result.items[0]).id
  {
    hide Keeps, Heap, RootMax, ItemOf;
    ids := [];
    ghost var left := kept;
    while |result.items| > 0
      invariant left <= kept && |result.items| == |left| && |ids| + |left| == |kept|
      invariant Keeps(multiset(result.items), q.nodes, q.sim, q.query, left)
      invariant Distinct(ids) && forall v: Id :: v in ids <==> v in kept && v !in left
      invariant if ids == [] then result.items == old(result.items) else ids[0] == old(result.items[0]).id
      decreases |result.items|
    {
      ghost var before := result.items;
      var item := result.Pop();
      assert item in multiset(before);
      KeepsRemove(multiset(before), q.nodes, q.sim, q.query, left, item);
      assert |multiset(result.items)| == |multiset(before)| - 1;
      left := left - {item.id};
      assert item.id !in ids;
      ids := ids + [item.id];
    }
  }

  /** What one search of a level promises about the ids it returns and the nodes it examined. */
  ghost predicate FoundOnLevel(nodes: Nodes, sim: Similarity, query: Vec, entryID: Id, ef: int, level: nat,
                               ids: seq<Id>, examined: set<Id>) {
    var reach := ReachSet(nodes, level, entryID);
    && 1 <= |ids| <= (if ef > 1 then ef else 1) && Distinct(ids)
    && (forall v: Id :: v in ids ==> v in examined)
    && examined <= reach && entryID in examined && Explored(nodes, level, examined, entryID)
    // no node examined, and no live friend of the first result, is closer than the first result
    && LocallyClosest(nodes, sim, query, ids[0], level)
    && (forall x: Id :: x in examined ==> Near(nodes, sim, query, x) <= Near(nodes, sim, query, ids[0]))
    // with room for everything reachable, everything reachable is found
    && (|reach| <= ef ==> forall v: Id :: v in ids <==> v in reach)
  }

  /** What a search finds depends only on the vectors and on the links of its level. */
  lemma FoundSame(nodes0: Nodes, nodes: Nodes, sim: Similarity, query: Vec, entryID: Id, ef: int, level: nat,
                  ids: seq<Id>, examined: set<Id>)
    requires nodes0.Keys == nodes.Keys && forall v: Id :: v in nodes0 ==> nodes[v].vector == nodes0[v].vector
    requires forall v: Id :: FriendsAt(nodes, v, level) == FriendsAt(nodes0, v, level)
    requires FoundOnLevel(nodes, sim, query, entryID, ef, level, ids, examined)
    ensures FoundOnLevel(nodes0, sim, query, entryID, ef, level, ids, examined)
  {
    assert LevelEdges(nodes, level) == LevelEdges(nodes0, level);
    assert ReachSet(nodes, level, entryID) == ReachSet(nodes0, level, entryID);
    assert forall v: Id :: Near(nodes, sim, query, v) == Near(nodes0, sim, query, v);
  }

  method SearchLayer(nodes: Nodes, sim: Similarity, query: Vec, entryID: Id, ef: int, level: nat)
    returns (ids: seq<Id>, ghost examined: set<Id>)
    ensures entryID !in nodes ==> ids == []
    ensures entryID in nodes ==> FoundOnLevel(nodes, sim, query, entryID, ef, level, ids, examined)
  {
    if entryID !in nodes {
      return [], {};
    }
    ReachIsExplored(nodes, level, entryID);
    ghost var reach := ReachSet(nodes, level, entryID);
    var q := Quest(nodes, sim, query, entryID, ef, level, reach);
    ghost var kept;
    var result;
    result, examined, kept := RunSearch(q);
    ghost var items := result.items;
    assert items[0] in multiset(items);
    ids := Extract(q, result, kept);
  }
}
