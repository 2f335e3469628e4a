/**
 The vector index object: insertion, removal, search and rebuild of the layered graph,
 and the brute-force index it speeds up.
 */
module HnswIndex {
  import opened Collections
  import opened Ranking
  import opened LayerSearch
  import opened HnswLinks
  import opened HnswInsert
  import opened HnswGrowth
  import opened HnswRemove
  import opened HnswIntegrity

  datatype IndexError = DimensionMismatch | AlreadyExists | RebuildRolledBack

  datatype Outcome = Ok | Failed(error: IndexError)

  function VectorsOf(nodes: Nodes): map<Id, Vec> {
    map v | v in nodes :: nodes[v].vector
  }

  ghost function NearTo(vectors: map<Id, Vec>, sim: Similarity, query: Vec): Id -> real {
    (v: Id) => if v in vectors then sim(query, vectors[v]) else 0.0
  }

  ghost predicate Sized(nodes: Nodes, dimension: nat) {
    forall v: Id :: v in nodes ==> |nodes[v].vector| == dimension
  }

  /** The level a new node draws: one up for each lucky toss in a row, never past the configured top. */
  method RandomLevel(config: HNSWConfig) returns (level: nat)
    ensures level == 0 || level <= config.maxLevel
  {
    level := 0;
    var lucky: bool := *;
    while lucky && level < config.maxLevel
      invariant level == 0 || level <= config.maxLevel
      decreases config.maxLevel - level
    {
      level := level + 1;
      lucky := *;
    }
  }

  /** What a search must deliver from the node `end` its descent leads to. */
  ghost predicate SearchResult(nodes: Nodes, sim: Similarity, query: Vec, k: nat, ef: int, end: Id, results: seq<Scored>) {
    var f := NearTo(VectorsOf(nodes), sim, query);
    && end in nodes && DistinctIds(results) && Descending(results) && |results| <= k
    && (k > 0 ==> |results| > 0)
    && (forall i :: 0 <= i < |results| ==> results[i].id in ReachSet(nodes, 0, end) && results[i].score == f(results[i].id))
    && (|ReachSet(nodes, 0, end)| <= ef ==> TopK(results, ReachSet(nodes, 0, end), f, k))
    // the end point of the descent and its friends never beat the best result
    && (k > 0 ==> f(end) <= results[0].score && forall v: Id :: v in FriendsAt(nodes, end, 0) && v in nodes ==> f(v) <= results[0].score)
    // the best score is that of a node whose friends do not beat it
    && (k > 0 ==> exists v: Id :: v in ReachSet(nodes, 0, end) && f(v) == results[0].score && LocallyClosest(nodes, sim, query, v, 0))
  }

  class HNSWIndex {
    const config: HNSWConfig
    const sim: Similarity
    var dimension: nat
    var nodes: Nodes
    var entryID: Id
    var maxLevel: int

    ghost predicate Valid()
      reads this
    {
      GraphOk(nodes, config.m) && EntryOk(nodes, entryID, maxLevel) && Sized(nodes, dimension)
    }

    ghost function Vectors(): map<Id, Vec>
      reads this
    {
      VectorsOf(nodes)
    }

    constructor (dimension: nat, config: HNSWConfig, sim: Similarity)
      ensures Valid() && Vectors() == map[] && this.dimension == dimension && this.config == config && this.sim == sim
    {
      this.config, this.sim, this.dimension := config, sim, dimension;
      nodes, entryID, maxLevel := map[], 0, -1;
    }

    /** Fails on a wrong dimension or a present id; else the index gains exactly that vector. */
    method Add(id: Id, vector: Vec) returns (r: Outcome)
      requires Valid()
      modifies this
      ensures Valid() && dimension == old(dimension)
      ensures r == if |vector| != dimension then Failed(DimensionMismatch)
                   else if id in old(nodes) then Failed(AlreadyExists) else Ok
      ensures r.Failed? ==> nodes == old(nodes) && entryID == old(entryID) && maxLevel == old(maxLevel)
      ensures r.Ok? ==> Vectors() == old(Vectors())[id := vector]
      ensures r.Ok? ==> id in nodes && (nodes[id].level == 0 || nodes[id].level <= config.maxLevel)
      ensures r.Ok? ==> entryID == if nodes[id].level > old(maxLevel) then id else old(entryID)
      ensures r.Ok? ==> exists starts: seq<Id> ::
                          Linked(Insertion(old(nodes), old(entryID), old(maxLevel), sim, config, id, vector, nodes[id].level), nodes, starts)
      ensures r.Ok? && config.m >= 1 ==> KeepsLinks(old(nodes), nodes, config.m)
    {
      if |vector| != dimension {
        return Failed(DimensionMismatch);
      }
      if id in nodes {
        return Failed(AlreadyExists);
      }
      hide GraphOk, EntryOk, Linked, KeepsLinks, Sized, VectorsOf, Inserted;
      var level := RandomLevel(config);
      ghost var w := Insertion(nodes, entryID, maxLevel, sim, config, id, vector, level);
      ghost var starts;
      nodes, entryID, maxLevel, starts := InsertNode(nodes, entryID, maxLevel, sim, config, id, vector, level);
      LinkedIsInserted(w, nodes, starts);
      AddedVector(w.nodes, nodes, id, vector, level, dimension);
      if config.m >= 1 {
        InsertionKeepsLinks(w, nodes, starts);
      }
      r := Ok;
    }

    /** Takes out exactly the given id, wherever it is linked from. */
    method Remove(id: Id) returns (found: bool)
      requires Valid()
      modifies this
      ensures Valid() && dimension == old(dimension)
      ensures found == (id in old(nodes))
      ensures !found ==> nodes == old(nodes) && entryID == old(entryID) && maxLevel == old(maxLevel)
      ensures id != old(entryID) ==> entryID == old(entryID) && maxLevel == old(maxLevel)
      ensures Vectors() == old(Vectors()) - {id}
      // references to the removed id survive exactly where it had not linked back
      ensures found ==> forall l: nat :: Forgotten(old(nodes), nodes, id, l) && OnlyHeirs(old(nodes), nodes, id, l)
      // and those it had named are linked among themselves as far as there is room
      ensures found ==> forall l: nat :: Rejoined(old(nodes), nodes, config.m, id, l)
    {
      if id !in nodes {
        return false;
      }
      nodes, entryID, maxLevel := RemoveNode(nodes, entryID, maxLevel, sim, config.m, id);
      found := true;
    }

    /** The node a descent from the entry point ends at on level 0. */
    method Descend(query: Vec) returns (currID: Id)
      requires Valid() && |nodes| > 0
      ensures currID in nodes && DescendsTo(nodes, sim, query, entryID, maxLevel, 0, currID)
    {
      currID := entryID;
      var l := maxLevel;
      while l > 0
        invariant currID in nodes
        invariant forall e: Id :: DescendsTo(nodes, sim, query, currID, l, 0, e) ==> DescendsTo(nodes, sim, query, entryID, maxLevel, 0, e)
      {
        ghost var from := currID;
        currID := SearchLayerClosest(nodes, sim, query, currID, l);
        assert DescentStep(nodes, sim, query, from, l, currID);
        l := l - 1;
      }
    }

    /**
     Rebuilds the graph from its vectors alone, in any order and with fresh levels, and
     keeps the result unless the integrity check rejects it. Nothing is assumed about the
     links being replaced.
     */
    method Rebuild() returns (r: Outcome)
      modifies this
      ensures dimension == old(dimension)
      ensures r.Ok? <==> |old(nodes)| == 0 || CanRebuild(old(nodes), dimension, config)
      ensures r.Failed? || |old(nodes)| == 0 ==> nodes == old(nodes) && entryID == old(entryID) && maxLevel == old(maxLevel)
      ensures r.Ok? ==> Vectors() == old(Vectors())
      ensures r.Ok? && |old(nodes)| > 0 ==> Valid() && Sound(nodes, entryID, dimension, config)
      ensures r.Ok? && |old(nodes)| > 0 && config.m >= 1 ==> WellGrown(nodes, config.m)
    {
      hide GraphOk, EntryOk, WellGrown, Carried, Rebuilding, Sized, VectorsOf, Sound;
      if |nodes| == 0 {
        return Ok;
      }
      var backup, backupEntry, backupLevel := nodes, entryID, maxLevel;
      nodes, entryID, maxLevel := InsertAll(backup, sim, config);
      RebuiltIsSound(backup, nodes, entryID, maxLevel, dimension, config);
      RebuiltIsGrown(backup, nodes, entryID, maxLevel, config);
      var ok := ValidateIntegrity(nodes, entryID, dimension, config);
      if !ok {
        nodes, entryID, maxLevel := backup, backupEntry, backupLevel;
        return Failed(RebuildRolledBack);
      }
      r := Ok;
    }

    method Search(query: Vec, k: nat) returns (results: seq<Scored>, ghost end: Id)
      requires Valid()
      ensures |query| != dimension || |nodes| == 0 ==> results == []
      ensures |query| == dimension && |nodes| > 0 ==>
                && DescendsTo(nodes, sim, query, entryID, maxLevel, 0, end)
                && SearchResult(nodes, sim, query, k, if config.efSearch > k then config.efSearch else k, end, results)
                && (k > 0 ==> Near(nodes, sim, query, entryID) <= results[0].score)
    {
      if |query| != dimension || |nodes| == 0 {
        return [], 0;
      }
      var currID := Descend(query);
      end := currID;
      DescentComesCloser(nodes, sim, query, entryID, maxLevel, 0, end);
      var ef := if config.efSearch > k then config.efSearch else k;
      var neighborIDs, examined := SearchLayer(nodes, sim, query, currID, ef, 0);
      var scored := ScoreAll(nodes, sim, query, neighborIDs);
      ghost var members := Members(neighborIDs);
      IdsEnumerate(nodes, sim, query, neighborIDs, scored, members);
      results := TakeTop(scored, members, NearTo(VectorsOf(nodes), sim, query), k);
      SearchDelivers(nodes, sim, query, k, ef, end, neighborIDs, examined, members, results);
    }
  }

  /** A graph under reconstruction from the vectors of `backup`. */
  ghost predicate Rebuilding(backup: Nodes, nodes: Nodes, entryID: Id, maxLevel: int, config: HNSWConfig, rest: set<Id>) {
    && GraphOk(nodes, config.m) && EntryOk(nodes, entryID, maxLevel)
    && (config.m >= 1 ==> WellGrown(nodes, config.m))
    && Carried(backup, nodes, config, rest)
  }

  /** All but `rest` have been carried over, with their vectors, at drawable levels. */
  ghost predicate Carried(backup: Nodes, nodes: Nodes, config: HNSWConfig, rest: set<Id>) {
    && rest <= backup.Keys && nodes.Keys == backup.Keys - rest
    && (forall v: Id :: v in nodes ==> nodes[v].vector == backup[v].vector)
    && (forall v: Id :: v in nodes ==> nodes[v].level == 0 || nodes[v].level <= config.maxLevel)
  }

  lemma CarriedOneMore(backup: Nodes, nodes0: Nodes, nodes: Nodes, config: HNSWConfig, rest: set<Id>, id: Id, level: nat)
    requires Carried(backup, nodes0, config, rest) && id in rest && Inserted(nodes0, nodes, id, backup[id].vector, level)
    requires level == 0 || level <= config.maxLevel
    ensures Carried(backup, nodes, config, rest - {id})
  {
  }

  lemma NothingCarried(backup: Nodes, config: HNSWConfig)
    ensures GraphOk(map[], config.m) && EntryOk(map[], 0, -1) && Carried(backup, map[], config, backup.Keys)
  {
  }

  lemma NotYetCarried(backup: Nodes, nodes: Nodes, config: HNSWConfig, rest: set<Id>, id: Id)
    requires Carried(backup, nodes, config, rest) && id in rest
    ensures id !in nodes && id in backup
  {
  }

  lemma AddedVector(nodes0: Nodes, nodes: Nodes, id: Id, vector: Vec, level: nat, dimension: nat)
    requires Inserted(nodes0, nodes, id, vector, level) && id !in nodes0 && Sized(nodes0, dimension) && |vector| == dimension
    ensures id in nodes && nodes[id].level == level
    ensures VectorsOf(nodes) == VectorsOf(nodes0)[id := vector] && Sized(nodes, dimension)
  {
  }

  lemma LinkedIsInserted(w: Insertion, nodes: Nodes, starts: seq<Id>)
    requires Linked(w, nodes, starts)
    ensures Inserted(w.nodes, nodes, w.id, w.vector, w.level)
  {
  }

  /** Inserts all the vectors of `backup` into an empty graph, in some order, at random levels. */
  method InsertAll(backup: Nodes, sim: Similarity, config: HNSWConfig) returns (nodes: Nodes, entryID: Id, maxLevel: int)
    ensures Rebuilding(backup, nodes, entryID, maxLevel, config, {})
  {
    hide WellGrown, KeepsLinks, Linked, GraphOk, EntryOk, Carried;
    nodes, entryID, maxLevel := map[], 0, -1;
    EmptyIsWellGrown(config.m);
    NothingCarried(backup, config);
    var rest := backup.Keys;
    while rest != {}
      invariant Rebuilding(backup, nodes, entryID, maxLevel, config, rest)
      decreases rest
    {
      var id: Id :| id in rest;
      var level := RandomLevel(config);
      ghost var w, before := Insertion(nodes, entryID, maxLevel, sim, config, id, backup[id].vector, level), nodes;
      ghost var starts;
      NotYetCarried(backup, nodes, config, rest, id);
      nodes, entryID, maxLevel, starts := InsertNode(nodes, entryID, maxLevel, sim, config, id, backup[id].vector, level);
      LinkedIsInserted(w, nodes, starts);
      if config.m >= 1 {
        InsertionKeepsLinks(w, nodes, starts);
        GrowsWell(before, nodes, config.m, id);
      }
      CarriedOneMore(backup, before, nodes, config, rest, id, level);
      rest := rest - {id};
    }
  }

  /** Exactly when a rebuild is kept. */
  ghost predicate CanRebuild(nodes: Nodes, dimension: nat, config: HNSWConfig) {
    Sized(nodes, dimension) && config.maxLevel >= 0 && (config.m >= 1 || |nodes| == 1)
  }

  lemma RebuiltIsSound(backup: Nodes, nodes: Nodes, entryID: Id, maxLevel: int, dimension: nat, config: HNSWConfig)
    requires |backup| > 0 && Rebuilding(backup, nodes, entryID, maxLevel, config, {})
    ensures VectorsOf(nodes) == VectorsOf(backup) && |nodes| == |backup|
    ensures Sound(nodes, entryID, dimension, config) <==> CanRebuild(backup, dimension, config)
    ensures Sized(nodes, dimension) <==> Sized(backup, dimension)
  {
    CarriedAll(backup, nodes, config, dimension);
    if CanRebuild(nodes, dimension, config) {
      RebuiltPasses(nodes, entryID, dimension, config);
    } else if Sized(nodes, dimension) && config.maxLevel >= 0 {
      LinklessFails(nodes, entryID, dimension, config);
    }
  }

  lemma RebuiltIsGrown(backup: Nodes, nodes: Nodes, entryID: Id, maxLevel: int, config: HNSWConfig)
    requires Rebuilding(backup, nodes, entryID, maxLevel, config, {})
    ensures GraphOk(nodes, config.m) && EntryOk(nodes, entryID, maxLevel)
    ensures config.m >= 1 ==> WellGrown(nodes, config.m)
  {
  }

  lemma CarriedAll(backup: Nodes, nodes: Nodes, config: HNSWConfig, dimension: nat)
    requires Carried(backup, nodes, config, {})
    ensures VectorsOf(nodes) == VectorsOf(backup) && |nodes| == |backup|
    ensures Sized(nodes, dimension) <==> Sized(backup, dimension)
  {
  }

  lemma RebuiltPasses(nodes: Nodes, entryID: Id, dimension: nat, config: HNSWConfig)
    requires |nodes| > 0 && entryID in nodes && GraphOk(nodes, config.m) && CanRebuild(nodes, dimension, config)
    requires config.m >= 1 ==> Whole(nodes)
    requires forall v: Id :: v in nodes ==> nodes[v].level == 0 || nodes[v].level <= config.maxLevel
    ensures Sound(nodes, entryID, dimension, config)
  {
    if config.m >= 1 {
      WholePasses(nodes, entryID, dimension, config);
    } else {
      LoneNodePasses(nodes, entryID, dimension, config);
    }
  }

  lemma LoneNodePasses(nodes: Nodes, entryID: Id, dimension: nat, config: HNSWConfig)
    requires |nodes| == 1 && config.m == 0 && GraphOk(nodes, 0) && entryID in nodes && NodesOk(nodes, dimension, config)
    ensures Sound(nodes, entryID, dimension, config)
  {
    forall v: Id, l: nat | v in nodes
      ensures FriendsAt(nodes, v, l) == []
    {
      assert ListOk(nodes, 0, v, l);
    }
    WholePasses(nodes, entryID, dimension, config);
  }

  method ScoreAll(nodes: Nodes, sim: Similarity, query: Vec, ids: seq<Id>) returns (scored: seq<Scored>)
    requires forall v :: v in ids ==> v in nodes
    ensures |scored| == |ids| && forall i :: 0 <= i < |ids| ==> scored[i] == Scored(ids[i], Near(nodes, sim, query, ids[i]))
  {
    scored := [];
    for k := 0 to |ids|
      invariant |scored| == k && forall i :: 0 <= i < k ==> scored[i] == Scored(ids[i], Near(nodes, sim, query, ids[i]))
    {
      scored := scored + [Scored(ids[k], Near(nodes, sim, query, ids[k]))];
    }
  }

  lemma IdsEnumerate(nodes: Nodes, sim: Similarity, query: Vec, ids: seq<Id>, scored: seq<Scored>, members: set<Id>)
    requires Distinct(ids) && (forall v :: v in ids ==> v in nodes) && members == Members(ids)
    requires |scored| == |ids| && forall i :: 0 <= i < |ids| ==> scored[i] == Scored(ids[i], Near(nodes, sim, query, ids[i]))
    ensures Enumerates(scored, members, NearTo(VectorsOf(nodes), sim, query))
  {
    DistinctSize(ids);
  }

  lemma SearchDelivers(nodes: Nodes, sim: Similarity, query: Vec, k: nat, ef: int, end: Id, ids: seq<Id>, examined: set<Id>,
                       members: set<Id>, results: seq<Scored>)
    requires end in nodes && FoundOnLevel(nodes, sim, query, end, ef, 0, ids, examined) && members == Members(ids)
    requires TopK(results, members, NearTo(VectorsOf(nodes), sim, query), k)
    ensures SearchResult(nodes, sim, query, k, ef, end, results)
  {
    var f := NearTo(VectorsOf(nodes), sim, query);
    if k > 0 {
      assert ids[0] in members && f(ids[0]) <= results[0].score;
      assert results[0].id in members;
    }
    if |ReachSet(nodes, 0, end)| <= ef {
      assert members == ReachSet(nodes, 0, end);
    }
  }

  /** The simple index: every vector is scored. */
  class BruteForceIndex {
    const sim: Similarity
    const dimension: nat
    var vectors: map<Id, Vec>

    constructor (dimension: nat, sim: Similarity)
      ensures vectors == map[] && this.dimension == dimension && this.sim == sim
    {
      this.dimension, this.sim, vectors := dimension, sim, map[];
    }

    method Add(id: Id, vector: Vec) returns (r: Outcome)
      modifies this
      ensures r == if |vector| != dimension then Failed(DimensionMismatch)
                   else if id in old(vectors) then Failed(AlreadyExists) else Ok
      ensures vectors == if r.Ok? then old(vectors)[id := vector] else old(vectors)
    {
      if |vector| != dimension {
        return Failed(DimensionMismatch);
      }
      if id in vectors {
        return Failed(AlreadyExists);
      }
      vectors := vectors[id := vector];
      r := Ok;
    }

    method Remove(id: Id) returns (found: bool)
      modifies this
      ensures found == (id in old(vectors)) && vectors == old(vectors) - {id}
    {
      found := id in vectors;
      vectors := vectors - {id};
    }

    method Search(query: Vec, k: nat) returns (results: seq<Scored>)
      ensures |query| != dimension ==> results == []
      ensures |query| == dimension ==> TopK(results, vectors.Keys, NearTo(vectors, sim, query), k)
    {
      if |query| != dimension {
        return [];
      }
      var scored := ScoreVectors(vectors, sim, query, NearTo(vectors, sim, query));
      results := TakeTop(scored, vectors.Keys, NearTo(vectors, sim, query), k);
    }
  }

  /** Scores every vector, in some order. */
  method ScoreVectors(vectors: map<Id, Vec>, sim: Similarity, query: Vec, ghost f: Id -> real) returns (scored: seq<Scored>)
    requires forall v: Id :: v in vectors ==> f(v) == sim(query, vectors[v])
    ensures Enumerates(scored, vectors.Keys, f)
  {
    scored := [];
    NoneScored(f);
    hide Enumerates;
    ghost var done: set<Id> := {};
    var rest := vectors.Keys;
    while rest != {}
      invariant rest <= vectors.Keys && done == vectors.Keys - rest
      invariant Enumerates(scored, done, f)
      decreases rest
    {
      var id: Id :| id in rest;
      var score := sim(query, vectors[id]);
      OneMoreScored(scored, done, f, id, score);
      done := done + {id};
      rest := rest - {id};
      scored := scored + [Scored(id, score)];
    }
    assert done == vectors.Keys;
  }

  lemma NoneScored(f: Id -> real)
    ensures Enumerates([], {}, f)
  {
  }

  lemma OneMoreScored(scored: seq<Scored>, members: set<Id>, f: Id -> real, id: Id, score: real)
    requires Enumerates(scored, members, f) && id !in members && score == f(id)
    ensures Enumerates(scored + [Scored(id, score)], members + {id}, f)
  {
  }

  /**
   With room for all nodes and all of them reachable, the layered search and the
   brute-force search of the same vectors return the same scores, place by place, and
   the same ids where scores are distinct.
   */
  lemma SearchRefinesBruteForce(nodes: Nodes, sim: Similarity, query: Vec, k: nat, ef: int, end: Id,
                                results: seq<Scored>, vectors: map<Id, Vec>, exact: seq<Scored>)
    requires SearchResult(nodes, sim, query, k, ef, end, results)
    requires vectors == VectorsOf(nodes) && TopK(exact, vectors.Keys, NearTo(vectors, sim, query), k)
    requires |nodes| <= ef && ReachSet(nodes, 0, end) == nodes.Keys
    ensures |results| == |exact| && forall i :: 0 <= i < |exact| ==> results[i].score == exact[i].score
    ensures (forall u: Id, v: Id :: u in vectors && v in vectors && u != v ==> sim(query, vectors[u]) != sim(query, vectors[v])) ==>
              results == exact
  {
    var f := NearTo(vectors, sim, query);
    assert vectors.Keys == nodes.Keys && |nodes.Keys| == |nodes|;
    TopScoresAgree(results, exact, vectors.Keys, f, k);
    if forall u: Id, v: Id :: u in vectors && v in vectors && u != v ==> sim(query, vectors[u]) != sim(query, vectors[v]) {
      TopIdsAgree(results, exact, vectors.Keys, f, k);
    }
  }
}
