/**
 Building and unbuilding the links of the layered graph: neighbour selection, linking a
 new node in, taking a node out and reconnecting what it held together.
 */
module HnswLinks {
  import opened Collections
  import opened Ranking
  import opened LayerSearch

  /** What linking never changes about the nodes. */
  ghost predicate SameShape(before: Nodes, after: Nodes) {
    && before.Keys == after.Keys
    && forall v: Id :: v in before ==> after[v] == before[v].(friends := after[v].friends) && |after[v].friends| == |before[v].friends|
  }

  /** A friend list: at most 2M entries, none of them the node itself. */
  ghost predicate ListOk(nodes: Nodes, m: nat, v: Id, l: nat) {
    |FriendsAt(nodes, v, l)| <= 2 * m && v !in FriendsAt(nodes, v, l)
  }

  ghost predicate GraphOk(nodes: Nodes, m: nat) {
    && (forall v: Id :: v in nodes ==> nodes[v].id == v && |nodes[v].friends| == nodes[v].level + 1)
    && (forall v: Id, l: nat :: v in nodes ==> ListOk(nodes, m, v, l))
  }

  /** All friends named anywhere lie in `known`. */
  ghost predicate FriendsWithin(nodes: Nodes, known: set<Id>) {
    forall v: Id, l: nat, f: Id :: v in nodes && f in FriendsAt(nodes, v, l) ==> f in known
  }

  ghost predicate NoDangling(nodes: Nodes) {
    FriendsWithin(nodes, nodes.Keys)
  }

  predicate HasLevel(nodes: Nodes, v: Id, l: nat) {
    v in nodes && l < |nodes[v].friends|
  }

  /** Replaces one friend list. */
  function SetList(nodes: Nodes, v: Id, l: nat, list: seq<Id>): (r: Nodes)
    requires HasLevel(nodes, v, l)
    ensures SameShape(nodes, r)
    ensures forall u: Id, k: nat :: FriendsAt(r, u, k) == if u == v && k == l then list else FriendsAt(nodes, u, k)
  {
    nodes[v := nodes[v].(friends := nodes[v].friends[l := list])]
  }

  lemma SetListOk(nodes: Nodes, m: nat, v: Id, l: nat, list: seq<Id>)
    requires GraphOk(nodes, m) && HasLevel(nodes, v, l) && |list| <= 2 * m && v !in list
    ensures GraphOk(SetList(nodes, v, l, list), m)
  {
    var r := SetList(nodes, v, l, list);
    forall u: Id, k: nat | u in r
      ensures ListOk(r, m, u, k)
    {
      assert ListOk(nodes, m, u, k);
    }
  }

  /** The live entries of a list, in order. */
  function Live(nodes: Nodes, list: seq<Id>): (r: seq<Id>)
    ensures |r| <= |list|
  {
    if list == [] then []
    else
      var n := |list| - 1;
      Live(nodes, list[..n]) + if list[n] in nodes then [list[n]] else []
  }

  lemma {:induction false} LiveAll(nodes: Nodes, list: seq<Id>)
    requires forall v :: v in list ==> v in nodes
    ensures Live(nodes, list) == list
    decreases |list|
  {
    if list != [] {
      LiveAll(nodes, list[..|list| - 1]);
    }
  }

  lemma {:induction false} LiveSame(nodes: Nodes, nodes': Nodes, list: seq<Id>)
    requires nodes.Keys == nodes'.Keys
    ensures Live(nodes, list) == Live(nodes', list)
    decreases |list|
  {
    if list != [] {
      LiveSame(nodes, nodes', list[..|list| - 1]);
    }
  }

  /** The result of choosing at most `m` neighbours. */
  ghost predicate Chosen(nodes: Nodes, sim: Similarity, query: Vec, candidates: seq<Id>, m: nat, result: seq<Id>) {
    && (forall v :: v in result ==> v in candidates) && (Distinct(candidates) ==> Distinct(result))
    && (|candidates| <= m ==> result == candidates)
    && (|candidates| > m ==>
          && (forall v :: v in result ==> v in nodes)
          && |result| == (if m <= |Live(nodes, candidates)| then m else |Live(nodes, candidates)|)
          && ClosestKept(nodes, sim, query, candidates, result) && ClosestFirst(nodes, sim, query, result))
  }

  /** No live candidate left out is closer than one taken. */
  ghost predicate ClosestKept(nodes: Nodes, sim: Similarity, query: Vec, candidates: seq<Id>, result: seq<Id>) {
    forall v, w :: v in candidates && v in nodes && v !in result && w in result ==>
                     Near(nodes, sim, query, v) <= Near(nodes, sim, query, w)
  }

  ghost predicate ClosestFirst(nodes: Nodes, sim: Similarity, query: Vec, result: seq<Id>) {
    forall i, j :: 0 <= i < j < |result| ==> Near(nodes, sim, query, result[j]) <= Near(nodes, sim, query, result[i])
  }

  lemma ChosenSame(nodes: Nodes, nodes': Nodes, sim: Similarity, query: Vec, candidates: seq<Id>, m: nat, result: seq<Id>)
    requires SameShape(nodes, nodes') && Chosen(nodes', sim, query, candidates, m, result)
    ensures Chosen(nodes, sim, query, candidates, m, result)
  {
    LiveSame(nodes, nodes', candidates);
    assert forall v: Id :: Near(nodes, sim, query, v) == Near(nodes', sim, query, v);
  }

  /** Keeps everything if it fits, else the closest live candidates. */
  method SelectNeighbors(nodes: Nodes, sim: Similarity, query: Vec, candidates: seq<Id>, m: nat) returns (result: seq<Id>)
    ensures Chosen(nodes, sim, query, candidates, m, result)
    ensures |result| <= m && forall v :: v in result ==> v in candidates
  {
    if |candidates| <= m {
      return candidates;
    }
    hide Chosen, Scores, DistinctIds, Distinct, Descending, Near, Live;
    var scored := ScoreLive(nodes, sim, query, candidates);
    var sorted := SortByScore(scored);
    result := FirstIds(sorted, m);
    FromScored(nodes, sim, query, candidates, scored, sorted);
    if Distinct(candidates) {
      SortKeepsDistinctIds(scored, sorted);
    }
    FirstAreChosen(nodes, sim, query, candidates, sorted, m, result);
  }

  /** The first of the sorted live candidates are the closest. */
  lemma FirstAreChosen(nodes: Nodes, sim: Similarity, query: Vec, candidates: seq<Id>, sorted: seq<Scored>, m: nat, result: seq<Id>)
    requires Scores(nodes, sim, query, candidates, sorted) && Descending(sorted) && |candidates| > m
    requires Distinct(candidates) ==> DistinctIds(sorted)
    requires |result| == (if m <= |sorted| then m else |sorted|) && forall i :: 0 <= i < |result| ==> result[i] == sorted[i].id
    ensures Chosen(nodes, sim, query, candidates, m, result)
  {
    hide Near;
    forall v, w | v in candidates && v in nodes && v !in result && w in result
      ensures Near(nodes, sim, query, v) <= Near(nodes, sim, query, w)
    {
      var i :| 0 <= i < |sorted| && sorted[i].id == v;
      var j :| 0 <= j < |result| && result[j] == w;
      assert i >= |result|;
      assert sorted[i].score <= sorted[j].score;
    }
  }

  /** Scores the live candidates. */
  method ScoreLive(nodes: Nodes, sim: Similarity, query: Vec, candidates: seq<Id>) returns (scored: seq<Scored>)
    ensures |scored| == |Live(nodes, candidates)|
    ensures forall s :: s in scored ==> s.id in candidates && s.id in nodes && s.score == Near(nodes, sim, query, s.id)
    ensures forall j :: 0 <= j < |candidates| && candidates[j] in nodes ==> Scored(candidates[j], Near(nodes, sim, query, candidates[j])) in scored
    ensures Distinct(candidates) ==> DistinctIds(scored)
  {
    hide Near;
    scored := [];
    for k := 0 to |candidates|
      invariant |scored| == |Live(nodes, candidates[..k])|
      invariant forall s :: s in scored ==> s.id in candidates && s.id in nodes && s.score == Near(nodes, sim, query, s.id)
      invariant Distinct(candidates) ==> DistinctIds(scored)
      invariant forall s :: s in scored ==> s.id in candidates[..k]
      invariant forall j :: 0 <= j < k && candidates[j] in nodes ==> Scored(candidates[j], Near(nodes, sim, query, candidates[j])) in scored
    {
      assert candidates[..k + 1][..k] == candidates[..k];
      if candidates[k] in nodes {
        scored := scored + [Scored(candidates[k], Near(nodes, sim, query, candidates[k]))];
      }
    }
    assert candidates[..|candidates|] == candidates;
  }

  method FirstIds(sorted: seq<Scored>, m: nat) returns (result: seq<Id>)
    ensures |result| == (if m <= |sorted| then m else |sorted|)
    ensures forall i :: 0 <= i < |result| ==> result[i] == sorted[i].id
  {
    result := [];
    var i := 0;
    while i < m && i < |sorted|
      invariant |result| == i <= m && i <= |sorted|
      invariant forall j :: 0 <= j < i ==> result[j] == sorted[j].id
    {
      result := result + [sorted[i].id];
      i := i + 1;
    }
  }

  /** The sorted entries are the scored live candidates. */
  ghost predicate Scores(nodes: Nodes, sim: Similarity, query: Vec, candidates: seq<Id>, sorted: seq<Scored>) {
    && |sorted| == |Live(nodes, candidates)|
    && (forall i :: 0 <= i < |sorted| ==> sorted[i].id in candidates && sorted[i].id in nodes
                                          && sorted[i].score == Near(nodes, sim, query, sorted[i].id))
    && (forall v :: v in candidates && v in nodes ==> exists i :: 0 <= i < |sorted| && sorted[i].id == v)
  }

  lemma FromScored(nodes: Nodes, sim: Similarity, query: Vec, candidates: seq<Id>, scored: seq<Scored>, sorted: seq<Scored>)
    requires |scored| == |Live(nodes, candidates)|
    requires forall s :: s in scored ==> s.id in candidates && s.id in nodes && s.score == Near(nodes, sim, query, s.id)
    requires forall j :: 0 <= j < |candidates| && candidates[j] in nodes ==> Scored(candidates[j], Near(nodes, sim, query, candidates[j])) in scored
    requires multiset(sorted) == multiset(scored) && |sorted| == |scored|
    ensures Scores(nodes, sim, query, candidates, sorted)
  {
    forall i | 0 <= i < |sorted|
      ensures sorted[i] in scored
    {
      assert sorted[i] in multiset(sorted);
    }
    forall v | v in candidates && v in nodes
      ensures exists i :: 0 <= i < |sorted| && sorted[i].id == v
    {
      var s := Scored(v, Near(nodes, sim, query, v));
      assert s in multiset(sorted);
      var i :| 0 <= i < |sorted| && sorted[i] == s;
    }
  }

  /**
   The list of `v` once `id` has been linked back to it: longer by `id` where there was room,
   else the closest `m` of its live entries.
   */
  ghost predicate LinkedTo(nodes0: Nodes, sim: Similarity, m: nat, v: Id, l: nat, id: Id, list: seq<Id>)
    requires v in nodes0
  {
    var longer := FriendsAt(nodes0, v, l) + [id];
    if |longer| <= 2 * m then list == longer
    else Chosen(nodes0, sim, nodes0[v].vector, longer, m, list)
  }

  /** The list a neighbour ends up with when `id` is linked back to it. */
  method LinkedBack(nodes: Nodes, sim: Similarity, m: nat, v: Id, l: nat, id: Id) returns (list: seq<Id>)
    requires HasLevel(nodes, v, l)
    ensures LinkedTo(nodes, sim, m, v, l, id, list)
  {
    var longer := FriendsAt(nodes, v, l) + [id];
    if |longer| > m * 2 {
      list := SelectNeighbors(nodes, sim, nodes[v].vector, longer, m);
    } else {
      list := longer;
    }
  }

  lemma LinkedToBounds(nodes: Nodes, sim: Similarity, m: nat, v: Id, l: nat, id: Id, list: seq<Id>)
    requires HasLevel(nodes, v, l) && ListOk(nodes, m, v, l) && v != id && LinkedTo(nodes, sim, m, v, l, id, list)
    ensures |list| <= 2 * m && v !in list
    ensures forall f :: f in list ==> f in FriendsAt(nodes, v, l) || f == id
    ensures m >= 1 && id !in nodes && (forall f :: f in FriendsAt(nodes, v, l) ==> f in nodes) ==> |list| > 0
  {
    if m >= 1 && id !in nodes && (forall f :: f in FriendsAt(nodes, v, l) ==> f in nodes) {
      LiveAll(nodes, FriendsAt(nodes, v, l));
    }
  }

  /** Linking `id` back on level `l`: each of `selected` that has the level gets its new list, nothing else changes. */
  ghost predicate BackLinked(nodes0: Nodes, nodes: Nodes, sim: Similarity, m: nat, id: Id, l: nat, selected: seq<Id>) {
    && SameShape(nodes0, nodes) && GraphOk(nodes, m)
    && (forall v: Id, k: nat :: k != l || v !in selected ==> FriendsAt(nodes, v, k) == FriendsAt(nodes0, v, k))
    && (forall v: Id :: v in selected && HasLevel(nodes0, v, l) ==> LinkedTo(nodes0, sim, m, v, l, id, FriendsAt(nodes, v, l)))
  }

  method ConnectBack(nodes0: Nodes, sim: Similarity, m: nat, id: Id, l: nat, selected: seq<Id>) returns (nodes: Nodes)
    requires GraphOk(nodes0, m) && Distinct(selected) && id !in selected
    ensures BackLinked(nodes0, nodes, sim, m, id, l, selected)
  {
    nodes := nodes0;
    for k := 0 to |selected|
      invariant BackLinked(nodes0, nodes, sim, m, id, l, selected[..k])
    {
      var neighborID := selected[k];
      assert selected[..k + 1] == selected[..k] + [neighborID];
      if HasLevel(nodes, neighborID, l) {
        var list := LinkedBack(nodes, sim, m, neighborID, l, id);
        OneMoreBackLink(nodes0, nodes, sim, m, id, l, selected[..k], neighborID, list);
        nodes := SetList(nodes, neighborID, l, list);
      }
    }
  }

  lemma OneMoreBackLink(nodes0: Nodes, nodes: Nodes, sim: Similarity, m: nat, id: Id, l: nat, done: seq<Id>, v: Id, list: seq<Id>)
    requires BackLinked(nodes0, nodes, sim, m, id, l, done) && v !in done && v != id && HasLevel(nodes, v, l)
    requires LinkedTo(nodes, sim, m, v, l, id, list)
    ensures BackLinked(nodes0, SetList(nodes, v, l, list), sim, m, id, l, done + [v])
  {
    assert ListOk(nodes, m, v, l);
    LinkedToBounds(nodes, sim, m, v, l, id, list);
    SetListOk(nodes, m, v, l, list);
    LinkedToSame(nodes0, nodes, sim, m, v, l, id, list);
  }

  lemma LinkedToSame(nodes0: Nodes, nodes: Nodes, sim: Similarity, m: nat, v: Id, l: nat, id: Id, list: seq<Id>)
    requires SameShape(nodes0, nodes) && v in nodes && FriendsAt(nodes, v, l) == FriendsAt(nodes0, v, l)
    requires LinkedTo(nodes, sim, m, v, l, id, list)
    ensures LinkedTo(nodes0, sim, m, v, l, id, list)
  {
    var longer := FriendsAt(nodes, v, l) + [id];
    if |longer| > 2 * m {
      ChosenSame(nodes0, nodes, sim, nodes[v].vector, longer, m, list);
    }
  }
}
