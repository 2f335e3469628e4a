/**
 The store's tables with the indexes kept beside them. Each change updates the rows and every
 index together; a row whose embedding the vector index refuses is taken out again.
 */
module StoreTables {

  import opened Collections
  import opened Tables
  import opened Wrappers
  import opened StoreContents

  /** A vector index by what it holds; absent until first needed. */
  type VectorIndex = Option<map<Id, Vec>>

  datatype DocumentTable = DocumentTable(
    rows: map<Id, Document>, byExtID: map<string, Id>, byFilename: map<string, seq<Id>>)

  datatype TextUnitTable = TextUnitTable(
    rows: map<Id, TextUnit>, byExtID: map<string, Id>, byDocID: map<Id, seq<Id>>,
    vecs: map<Id, Vec>, index: VectorIndex)

  datatype EntityTable = EntityTable(
    rows: map<Id, Entity>, byExtID: map<string, Id>, byTitle: map<string, Id>,
    vecs: map<Id, Vec>, index: VectorIndex)

  datatype RelationshipTable = RelationshipTable(
    rows: map<Id, Relationship>, byExtID: map<string, Id>, bySourceTarget: map<RelKey, Id>,
    outEdges: map<Id, seq<Id>>, inEdges: map<Id, seq<Id>>)

  datatype CommunityTable = CommunityTable(
    rows: map<Id, Community>, byExtID: map<string, Id>, byLevel: map<Level, seq<Id>>,
    vecs: map<Id, Vec>, index: VectorIndex)

  // ---------------------------------------------------------------- what the indexes should be

  /** The vector index, once made, holds exactly the embeddings. */
  ghost predicate VectorsOk(vecs: map<Id, Vec>, index: VectorIndex) {
    match index case None => |vecs| == 0 case Some(m) => m == vecs
  }

  ghost predicate DocumentsOk(t: DocumentTable) {
    IsIndex(t.rows, t.byExtID, DocumentExt) && IsGrouping(t.rows, t.byFilename, DocumentFile)
  }

  ghost predicate TextUnitsOk(t: TextUnitTable) {
    IsIndex(t.rows, t.byExtID, TextUnitExt) && IsGrouping(t.rows, t.byDocID, TextUnitParent) && VectorsOk(t.vecs, t.index)
  }

  ghost predicate EntitiesOk(t: EntityTable) {
    IsIndex(t.rows, t.byExtID, EntityExt) && IsIndex(t.rows, t.byTitle, EntityTitle) && VectorsOk(t.vecs, t.index)
  }

  ghost predicate RelationshipsOk(t: RelationshipTable) {
    && IsIndex(t.rows, t.byExtID, RelationshipExt) && IsIndex(t.rows, t.bySourceTarget, RelationshipKey)
    && IsGrouping(t.rows, t.outEdges, RelationshipSource) && IsGrouping(t.rows, t.inEdges, RelationshipTarget)
  }

  ghost predicate CommunitiesOk(t: CommunityTable) {
    IsIndex(t.rows, t.byExtID, CommunityExt) && IsGrouping(t.rows, t.byLevel, CommunityLevel) && VectorsOk(t.vecs, t.index)
  }

  // ---------------------------------------------------------------- vector indexes

  method ValidateOptionalEmbedding(cfg: Config, vec: Vec) returns (ok: bool)
    ensures ok <==> EmbeddingOk(cfg, vec)
  {
    if |vec| == 0 {
      return true;
    }
    if |vec| != cfg.dim {
      return false;
    }
    for i := 0 to |vec|
      invariant forall j :: 0 <= j < i ==> IsFinite(vec[j])
    {
      if !IsFinite(vec[i]) {
        return false;
      }
    }
    return true;
  }

  /** The index refuses an embedding of the wrong length. */
  function AddVector(index: VectorIndex, dim: nat, id: Id, vec: Vec): Option<map<Id, Vec>> {
    var m := if index.Some? then index.value else map[];
    if |vec| == dim then Some(m[id := vec]) else None
  }

  function RemoveVector(index: VectorIndex, id: Id): VectorIndex {
    if index.Some? then Some(index.value - {id}) else None
  }

  lemma VectorAdded(vecs: map<Id, Vec>, index: VectorIndex, dim: nat, id: Id, vec: Vec)
    requires VectorsOk(vecs, index)
    ensures AddVector(index, dim, id, vec).Some? ==> VectorsOk(vecs[id := vec], AddVector(index, dim, id, vec))
    ensures VectorsOk(vecs, Some(if index.Some? then index.value else map[]))
  {
  }

  lemma VectorRemoved(vecs: map<Id, Vec>, index: VectorIndex, id: Id)
    requires VectorsOk(vecs, index)
    ensures VectorsOk(vecs - {id}, RemoveVector(index, id))
  {
  }

  /** A fresh index holding every embedding; none if there are none. */
  method RebuildVectors(vecs: map<Id, Vec>, dim: nat) returns (index: VectorIndex)
    requires forall i: Id :: i in vecs ==> |vecs[i]| == dim
    ensures VectorsOk(vecs, index) && (index.Some? <==> |vecs| > 0)
  {
    if |vecs| == 0 {
      return None;
    }
    index := Some(map[]);
    var rest: set<Id> := vecs.Keys;
    while rest != {}
      invariant rest <= vecs.Keys && index.Some?
      invariant index.value.Keys == vecs.Keys - rest
      invariant forall i: Id :: i in index.value ==> index.value[i] == vecs[i]
      decreases |rest|
    {
      var i: Id :| i in rest;
      index := AddVector(index, dim, i, vecs[i]);
      rest := rest - {i};
    }
  }

  // ---------------------------------------------------------------- documents

  lemma DocumentLookup(t: DocumentTable, extID: string)
    requires DocumentsOk(t)
    ensures extID in t.byExtID <==> InUse(t.rows, DocumentExt, extID)
  {
  }

  method InsertDocument(t: DocumentTable, id: Id, d: Document) returns (u: DocumentTable)
    requires DocumentsOk(t) && id !in t.rows && d.extID !in t.byExtID
    ensures DocumentsOk(u) && u.rows == t.rows[id := d]
  {
    IndexAdd(t.rows, t.byExtID, DocumentExt, id, d);
    GroupAdd(t.rows, t.byFilename, DocumentFile, id, d);
    u := t.(rows := t.rows[id := d], byExtID := t.byExtID[d.extID := id]);
    if d.filename != "" {
      u := u.(byFilename := u.byFilename[d.filename := GroupOf(u.byFilename, d.filename) + [id]]);
    }
  }

  /** One id out of its group; an emptied group is deleted. */
  method RemoveFromGroup<K(!new, ==), V>(rows: map<Id, V>, groups: map<K, seq<Id>>, ghost key: V -> Option<K>, k: K, id: Id)
      returns (left: map<K, seq<Id>>)
    requires IsGrouping(rows, groups, key) && id in rows && key(rows[id]) == Some(k)
    ensures IsGrouping(rows - {id}, left, key)
  {
    GroupDrop(rows, groups, key, id);
    var ids := RemoveID(GroupOf(groups, k), id);
    left := if |ids| == 0 then groups - {k} else groups[k := ids];
  }

  method RemoveDocument(t: DocumentTable, id: Id) returns (u: DocumentTable)
    requires DocumentsOk(t) && id in t.rows
    ensures DocumentsOk(u) && u.rows == t.rows - {id}
  {
    var d := t.rows[id];
    var byFilename := t.byFilename;
    if d.filename != "" {
      byFilename := RemoveFromGroup(t.rows, t.byFilename, DocumentFile, d.filename, id);
    }
    u := DocumentTable(t.rows - {id}, t.byExtID - {d.extID}, byFilename);
  }

  // ---------------------------------------------------------------- text units

  lemma TextUnitLookup(t: TextUnitTable, extID: string, docID: Id)
    requires TextUnitsOk(t)
    ensures extID in t.byExtID <==> InUse(t.rows, TextUnitExt, extID)
    ensures GroupOf(t.byDocID, docID) != [] <==> InUse(t.rows, TextUnitParent, docID)
  {
    GroupLookup(t.rows, t.byDocID, TextUnitParent, docID);
  }

  /** The row goes in first; if the vector index refuses its embedding it is taken out again. */
  method InsertTextUnit(t: TextUnitTable, dim: nat, id: Id, x: TextUnit, vec: Vec) returns (u: TextUnitTable, ok: bool)
    requires TextUnitsOk(t) && id !in t.rows && x.extID !in t.byExtID
    ensures TextUnitsOk(u) && (ok <==> vec == [] || |vec| == dim)
    ensures ok ==> u.rows == t.rows[id := x] && u.vecs == Remember(t.vecs, id, vec)
    ensures !ok ==> u.rows == t.rows && u.vecs == t.vecs
  {
    var byDocID;
    var rows := t.rows[id := x];
    byDocID := t.byDocID[x.documentID := GroupOf(t.byDocID, x.documentID) + [id]];
    var byExtID := t.byExtID[x.extID := id];
    IndexAdd(t.rows, t.byExtID, TextUnitExt, id, x);
    GroupAdd(t.rows, t.byDocID, TextUnitParent, id, x);
    u, ok := TextUnitTable(rows, byExtID, byDocID, t.vecs, t.index), true;
    if |vec| > 0 {
      VectorAdded(t.vecs, t.index, dim, id, vec);
      var added := AddVector(t.index, dim, id, vec);
      if added.None? {
        byDocID := RemoveFromGroup(rows, byDocID, TextUnitParent, x.documentID, id);
        assert rows - {id} == t.rows;
        u := TextUnitTable(rows - {id}, byExtID - {x.extID}, byDocID, t.vecs, t.index);
        ok := false;
      } else {
        u := u.(vecs := t.vecs[id := vec], index := added);
      }
    }
  }

  method RemoveTextUnit(t: TextUnitTable, id: Id) returns (u: TextUnitTable)
    requires TextUnitsOk(t) && id in t.rows
    ensures TextUnitsOk(u) && u.rows == t.rows - {id} && u.vecs == t.vecs - {id}
  {
    var x := t.rows[id];
    var byDocID := RemoveFromGroup(t.rows, t.byDocID, TextUnitParent, x.documentID, id);
    u := TextUnitTable(t.rows - {id}, t.byExtID - {x.extID}, byDocID, t.vecs - {id}, RemoveVector(t.index, id));
  }

  // ---------------------------------------------------------------- entities

  lemma EntityLookup(t: EntityTable, extID: string, title: string)
    requires EntitiesOk(t)
    ensures extID in t.byExtID <==> InUse(t.rows, EntityExt, extID)
    ensures title in t.byTitle <==> InUse(t.rows, EntityTitle, title)
  {
  }

  method InsertEntity(t: EntityTable, dim: nat, id: Id, x: Entity, vec: Vec) returns (u: EntityTable, ok: bool)
    requires EntitiesOk(t) && id !in t.rows && x.extID !in t.byExtID && x.title !in t.byTitle
    ensures EntitiesOk(u) && (ok <==> vec == [] || |vec| == dim)
    ensures ok ==> u.rows == t.rows[id := x] && u.vecs == Remember(t.vecs, id, vec)
    ensures !ok ==> u.rows == t.rows && u.vecs == t.vecs
  {
    IndexAdd(t.rows, t.byExtID, EntityExt, id, x);
    IndexAdd(t.rows, t.byTitle, EntityTitle, id, x);
    u := t.(rows := t.rows[id := x], byExtID := t.byExtID[x.extID := id], byTitle := t.byTitle[x.title := id]);
    ok := true;
    if |vec| > 0 {
      var added := AddVector(t.index, dim, id, vec);
      if added.None? {
        IndexDrop(u.rows, u.byExtID, EntityExt, id);
        assert u.rows - {id} == t.rows;
        u := u.(rows := u.rows - {id}, byExtID := u.byExtID - {x.extID}, byTitle := u.byTitle - {x.title});
        ok := false;
      } else {
        u := u.(vecs := t.vecs[id := vec], index := added);
      }
    }
  }

  method RemoveEntity(t: EntityTable, id: Id) returns (u: EntityTable)
    requires EntitiesOk(t) && id in t.rows
    ensures EntitiesOk(u) && u.rows == t.rows - {id} && u.vecs == t.vecs - {id}
  {
    var x := t.rows[id];
    VectorRemoved(t.vecs, t.index, id);
    u := EntityTable(t.rows - {id}, t.byExtID - {x.extID}, t.byTitle - {x.title}, t.vecs - {id}, RemoveVector(t.index, id));
  }

  // ---------------------------------------------------------------- relationships

  lemma RelationshipLookup(t: RelationshipTable, extID: string, key: RelKey)
    requires RelationshipsOk(t)
    ensures extID in t.byExtID <==> InUse(t.rows, RelationshipExt, extID)
    ensures key in t.bySourceTarget <==> InUse(t.rows, RelationshipKey, key)
  {
  }

  lemma EdgeLookup(t: RelationshipTable, entity: Id)
    requires RelationshipsOk(t)
    ensures GroupOf(t.outEdges, entity) != [] <==> InUse(t.rows, RelationshipSource, entity)
    ensures GroupOf(t.inEdges, entity) != [] <==> InUse(t.rows, RelationshipTarget, entity)
  {
    GroupLookup(t.rows, t.outEdges, RelationshipSource, entity);
    GroupLookup(t.rows, t.inEdges, RelationshipTarget, entity);
  }

  method InsertRelationship(t: RelationshipTable, id: Id, x: Relationship) returns (u: RelationshipTable)
    requires RelationshipsOk(t) && id !in t.rows && RelKey(x.sourceID, x.targetID, x.kind) !in t.bySourceTarget
    requires x.extID != "" ==> x.extID !in t.byExtID
    ensures RelationshipsOk(u) && u.rows == t.rows[id := x]
  {
    IndexAdd(t.rows, t.byExtID, RelationshipExt, id, x);
    IndexAdd(t.rows, t.bySourceTarget, RelationshipKey, id, x);
    GroupAdd(t.rows, t.outEdges, RelationshipSource, id, x);
    GroupAdd(t.rows, t.inEdges, RelationshipTarget, id, x);
    u := t.(rows := t.rows[id := x],
            bySourceTarget := t.bySourceTarget[RelKey(x.sourceID, x.targetID, x.kind) := id],
            outEdges := t.outEdges[x.sourceID := GroupOf(t.outEdges, x.sourceID) + [id]],
            inEdges := t.inEdges[x.targetID := GroupOf(t.inEdges, x.targetID) + [id]]);
    if x.extID != "" {
      u := u.(byExtID := u.byExtID[x.extID := id]);
    }
  }

  /** Edge lists keep their key when they become empty. */
  method RemoveRelationship(t: RelationshipTable, id: Id) returns (u: RelationshipTable)
    requires RelationshipsOk(t) && id in t.rows
    ensures RelationshipsOk(u) && u.rows == t.rows - {id}
  {
    var x := t.rows[id];
    IndexDrop(t.rows, t.byExtID, RelationshipExt, id);
    IndexDrop(t.rows, t.bySourceTarget, RelationshipKey, id);
    GroupDrop(t.rows, t.outEdges, RelationshipSource, id);
    GroupDrop(t.rows, t.inEdges, RelationshipTarget, id);
    var outIDs := RemoveID(t.outEdges[x.sourceID], id);
    var inIDs := RemoveID(t.inEdges[x.targetID], id);
    u := RelationshipTable(t.rows - {id}, t.byExtID - {x.extID},
                           t.bySourceTarget - {RelKey(x.sourceID, x.targetID, x.kind)},
                           t.outEdges[x.sourceID := outIDs], t.inEdges[x.targetID := inIDs]);
  }

  // ---------------------------------------------------------------- communities

  lemma CommunityLookup(t: CommunityTable, extID: string)
    requires CommunitiesOk(t)
    ensures extID in t.byExtID <==> InUse(t.rows, CommunityExt, extID)
    ensures "" !in t.byExtID
  {
  }

  /** The row goes in first; if the vector index refuses its embedding it is taken out again. */
  method InsertCommunity(t: CommunityTable, dim: nat, id: Id, x: Community, vec: Vec) returns (u: CommunityTable, ok: bool)
    requires CommunitiesOk(t) && id !in t.rows && (x.extID != "" ==> x.extID !in t.byExtID)
    ensures CommunitiesOk(u) && (ok <==> vec == [] || |vec| == dim)
    ensures ok ==> u.rows == t.rows[id := x] && u.vecs == Remember(t.vecs, id, vec)
    ensures !ok ==> u.rows == t.rows && u.vecs == t.vecs
  {
    hide CommunitiesOk;
    CommunityEntered(t, id, x);
    u := t.(rows := t.rows[id := x], byExtID := if x.extID != "" then t.byExtID[x.extID := id] else t.byExtID,
            byLevel := t.byLevel[x.level := GroupOf(t.byLevel, x.level) + [id]]);
    ok := true;
    if |vec| > 0 {
      var added := AddVector(t.index, dim, id, vec);
      if added.None? {
        u := RemoveCommunity(u, id);
        u := u.(vecs := t.vecs, index := t.index);
        CommunityWithVectors(t, u);
        ok := false;
      } else {
        CommunityVector(u, dim, id, vec);
        u := u.(vecs := t.vecs[id := vec], index := added);
      }
    }
  }

  lemma CommunityEntered(t: CommunityTable, id: Id, x: Community)
    requires CommunitiesOk(t) && id !in t.rows && (x.extID != "" ==> x.extID !in t.byExtID)
    ensures CommunitiesOk(t.(rows := t.rows[id := x],
                             byExtID := if x.extID != "" then t.byExtID[x.extID := id] else t.byExtID,
                             byLevel := t.byLevel[x.level := GroupOf(t.byLevel, x.level) + [id]]))
  {
    hide IsIndex, IsGrouping;
    IndexAdd(t.rows, t.byExtID, CommunityExt, id, x);
    GroupAdd(t.rows, t.byLevel, CommunityLevel, id, x);
  }

  lemma CommunityVector(t: CommunityTable, dim: nat, id: Id, vec: Vec)
    requires CommunitiesOk(t) && AddVector(t.index, dim, id, vec).Some?
    ensures CommunitiesOk(t.(vecs := t.vecs[id := vec], index := AddVector(t.index, dim, id, vec)))
  {
    hide IsIndex, IsGrouping;
  }

  lemma CommunityWithVectors(t: CommunityTable, u: CommunityTable)
    requires CommunitiesOk(t) && u.vecs == t.vecs && u.index == t.index
    requires exists vecs, index :: CommunitiesOk(u.(vecs := vecs, index := index))
    ensures CommunitiesOk(u)
  {
    hide IsIndex, IsGrouping;
  }

  method RemoveCommunity(t: CommunityTable, id: Id) returns (u: CommunityTable)
    requires CommunitiesOk(t) && id in t.rows
    ensures CommunitiesOk(u) && u.rows == t.rows - {id} && u.vecs == t.vecs - {id}
  {
    var x := t.rows[id];
    CommunityLookup(t, x.extID);
    IndexDrop(t.rows, t.byExtID, CommunityExt, id);
    assert x.extID == "" ==> t.byExtID - {x.extID} == t.byExtID;
    var byLevel := RemoveFromGroup(t.rows, t.byLevel, CommunityLevel, x.level, id);
    VectorRemoved(t.vecs, t.index, id);
    u := CommunityTable(t.rows - {id}, t.byExtID - {x.extID}, byLevel, t.vecs - {id}, RemoveVector(t.index, id));
  }

  // ---------------------------------------------------------------- rows changed in place

  /** A change of a row that keeps its keys keeps its table right. */
  lemma TextUnitChanged(t: TextUnitTable, id: Id, x: TextUnit)
    requires TextUnitsOk(t) && id in t.rows && x.extID == t.rows[id].extID && x.documentID == t.rows[id].documentID
    ensures TextUnitsOk(t.(rows := t.rows[id := x]))
  {
    hide IsIndex, IsGrouping;
    IndexUpdate(t.rows, t.byExtID, TextUnitExt, id, x);
    GroupUpdate(t.rows, t.byDocID, TextUnitParent, id, x);
  }

  lemma EntityChanged(t: EntityTable, id: Id, x: Entity)
    requires EntitiesOk(t) && id in t.rows && x.extID == t.rows[id].extID && x.title == t.rows[id].title
    ensures EntitiesOk(t.(rows := t.rows[id := x]))
  {
    hide IsIndex;
    IndexUpdate(t.rows, t.byExtID, EntityExt, id, x);
    IndexUpdate(t.rows, t.byTitle, EntityTitle, id, x);
  }

  /** The estimate of every row, added up. */
  method SumCosts<V>(rows: map<Id, V>, cost: (Id, V) -> nat, ghost costs: map<Id, nat>) returns (total: nat)
    requires costs.Keys == rows.Keys && forall i: Id :: i in rows ==> costs[i] == cost(i, rows[i])
    ensures total == Total(costs)
  {
    total := 0;
    var rest: set<Id> := rows.Keys;
    ghost var left := costs;
    while rest != {}
      invariant rest <= rows.Keys && left.Keys == rest
      invariant forall i: Id :: i in left ==> left[i] == costs[i]
      invariant total + Total(left) == Total(costs)
      decreases |rest|
    {
      var i: Id :| i in rest;
      TotalDrop(left, i);
      total := total + cost(i, rows[i]);
      left := left - {i};
      rest := rest - {i};
    }
  }

  method AllInRows<V>(ids: seq<Id>, rows: map<Id, V>) returns (all: bool)
    ensures all <==> AllIn(ids, rows)
  {
    for i := 0 to |ids|
      invariant forall j :: 0 <= j < i ==> ids[j] in rows
    {
      if ids[i] !in rows {
        return false;
      }
    }
    return true;
  }
}
