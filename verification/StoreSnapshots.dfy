/**
 A session snapshot: the rows as lists in any order, the embeddings and the counters; and the
 loops that make the tables and indexes again from the lists.
 */
module StoreSnapshots {

  import opened Collections
  import opened Tables
  import opened Wrappers
  import opened StoreContents
  import opened StoreRuns
  import opened StoreTables

  datatype SessionSnapshot = SessionSnapshot(
    documents: seq<(Id, Document)>,
    textUnits: seq<(Id, TextUnit)>,
    entities: seq<(Id, Entity)>,
    relationships: seq<(Id, Relationship)>,
    communities: seq<(Id, Community)>,
    counters: Counters,
    textUnitVectors: map<Id, Vec>,
    entityVectors: map<Id, Vec>,
    communityVectors: map<Id, Vec>)

  /** The list holds each row once. */
  ghost predicate Enumerates<V(!new)>(list: seq<(Id, V)>, rows: map<Id, V>) {
    && (forall i, j :: 0 <= i < j < |list| ==> list[i].0 != list[j].0)
    && (forall i :: 0 <= i < |list| ==> list[i].0 in rows && rows[list[i].0] == list[i].1)
    && (forall k: Id :: k in rows ==> (k, rows[k]) in list)
  }

  ghost predicate IsSnapshotOf(snap: SessionSnapshot, c: Contents) {
    && Enumerates(snap.documents, c.documents) && Enumerates(snap.textUnits, c.textUnits)
    && Enumerates(snap.entities, c.entities) && Enumerates(snap.relationships, c.relationships)
    && Enumerates(snap.communities, c.communities)
    && snap.counters == c.counters
    && snap.textUnitVectors == c.textUnitVecs && snap.entityVectors == c.entityVecs
    && snap.communityVectors == c.communityVecs
  }

  /** A snapshot is of one contents only: nothing it must keep is left out. */
  lemma SnapshotDetermines(snap: SessionSnapshot, c: Contents, d: Contents)
    requires IsSnapshotOf(snap, c) && IsSnapshotOf(snap, d)
    ensures c == d
  {
  }

  /** The rows of a table in whatever order the map gives them. */
  method ListRows<V(!new)>(rows: map<Id, V>) returns (list: seq<(Id, V)>)
    ensures Enumerates(list, rows)
  {
    list := [];
    var rest: set<Id> := rows.Keys;
    while rest != {}
      invariant rest <= rows.Keys
      invariant forall i, j :: 0 <= i < j < |list| ==> list[i].0 != list[j].0
      invariant forall i :: 0 <= i < |list| ==> list[i].0 in rows && list[i].0 !in rest && rows[list[i].0] == list[i].1
      invariant forall k: Id :: k in rows && k !in rest ==> (k, rows[k]) in list
      decreases |rest|
    {
      var k: Id :| k in rest;
      list := list + [(k, rows[k])];
      rest := rest - {k};
    }
  }

  // ---------------------------------------------------------------- restoring

  /** The rows so far are those of the first n of the list. */
  ghost predicate SoFar<V(!new)>(done: map<Id, V>, list: seq<(Id, V)>, rows: map<Id, V>, n: nat)
    requires n <= |list|
  {
    && (forall k: Id :: k in done ==> k in rows && done[k] == rows[k])
    && (forall i :: 0 <= i < n ==> list[i].0 in done)
    && (forall k: Id :: k in done ==> exists i :: 0 <= i < n && list[i].0 == k)
  }

  lemma SoFarNext<V(!new)>(done: map<Id, V>, list: seq<(Id, V)>, rows: map<Id, V>, n: nat)
    requires n < |list| && Enumerates(list, rows) && SoFar(done, list, rows, n)
    ensures list[n].0 !in done && SoFar(done[list[n].0 := list[n].1], list, rows, n + 1)
  {
  }

  lemma SoFarAll<V(!new)>(done: map<Id, V>, list: seq<(Id, V)>, rows: map<Id, V>)
    requires Enumerates(list, rows) && SoFar(done, list, rows, |list|)
    ensures done == rows
  {
  }

  /** A key of the next row is in use in none of the rows so far. */
  lemma NextKeyFree<K, V(!new)>(done: map<Id, V>, list: seq<(Id, V)>, rows: map<Id, V>, n: nat, key: V -> Option<K>)
    requires n < |list| && Enumerates(list, rows) && SoFar(done, list, rows, n) && KeysUnique(rows, key)
    requires key(list[n].1).Some?
    ensures !InUse(done, key, key(list[n].1).value)
  {
  }

  method RestoreDocuments(list: seq<(Id, Document)>, ghost rows: map<Id, Document>) returns (t: DocumentTable)
    ensures Enumerates(list, rows) && KeysUnique(rows, DocumentExt) ==> DocumentsOk(t) && t.rows == rows
  {
    hide KeysUnique, DocumentsOk, InUse, Enumerates, SoFar;
    ghost var good := Enumerates(list, rows) && KeysUnique(rows, DocumentExt);
    t := DocumentTable(map[], map[], map[]);
    EmptyDocuments(t);
    SoFarNone(list, rows);
    for i := 0 to |list|
      invariant good ==> DocumentsOk(t) && SoFar(t.rows, list, rows, i)
    {
      var id, d := list[i].0, list[i].1;
      if good {
        SoFarNext(t.rows, list, rows, i);
        NextKeyFree(t.rows, list, rows, i, DocumentExt);
        DocumentLookup(t, d.extID);
        DocumentPut(t, id, d);
      }
      t := t.(rows := t.rows[id := d], byExtID := t.byExtID[d.extID := id]);
      if d.filename != "" {
        t := t.(byFilename := t.byFilename[d.filename := GroupOf(t.byFilename, d.filename) + [id]]);
      }
    }
    if good {
      SoFarAll(t.rows, list, rows);
    }
  }

  lemma SoFarNone<V(!new)>(list: seq<(Id, V)>, rows: map<Id, V>)
    ensures SoFar(map[], list, rows, 0)
  {
  }

  lemma EmptyDocuments(t: DocumentTable)
    requires t == DocumentTable(map[], map[], map[])
    ensures DocumentsOk(t)
  {
  }

  lemma DocumentPut(t: DocumentTable, id: Id, d: Document)
    requires DocumentsOk(t) && id !in t.rows && d.extID !in t.byExtID
    ensures var u := t.(rows := t.rows[id := d], byExtID := t.byExtID[d.extID := id]);
      DocumentsOk(if d.filename == "" then u
                  else u.(byFilename := t.byFilename[d.filename := GroupOf(t.byFilename, d.filename) + [id]]))
  {
    IndexAdd(t.rows, t.byExtID, DocumentExt, id, d);
    GroupAdd(t.rows, t.byFilename, DocumentFile, id, d);
  }

  /** The table of text units with no embeddings yet. */
  method RestoreTextUnits(list: seq<(Id, TextUnit)>, ghost rows: map<Id, TextUnit>) returns (t: TextUnitTable)
    ensures t.vecs == map[] && t.index == None
    ensures Enumerates(list, rows) && KeysUnique(rows, TextUnitExt) ==> TextUnitsOk(t) && t.rows == rows
  {
    hide KeysUnique, TextUnitsOk, InUse, Enumerates, SoFar;
    ghost var good := Enumerates(list, rows) && KeysUnique(rows, TextUnitExt);
    t := TextUnitTable(map[], map[], map[], map[], None);
    EmptyTextUnits(t);
    SoFarNone(list, rows);
    for i := 0 to |list|
      invariant t.vecs == map[] && t.index == None
      invariant good ==> TextUnitsOk(t) && SoFar(t.rows, list, rows, i)
    {
      var id, x := list[i].0, list[i].1;
      if good {
        SoFarNext(t.rows, list, rows, i);
        NextKeyFree(t.rows, list, rows, i, TextUnitExt);
        TextUnitLookup(t, x.extID, x.documentID);
        TextUnitPut(t, id, x);
      }
      t := t.(rows := t.rows[id := x], byExtID := t.byExtID[x.extID := id],
              byDocID := t.byDocID[x.documentID := GroupOf(t.byDocID, x.documentID) + [id]]);
    }
    if good {
      SoFarAll(t.rows, list, rows);
    }
  }

  lemma EmptyTextUnits(t: TextUnitTable)
    requires t == TextUnitTable(map[], map[], map[], map[], None)
    ensures TextUnitsOk(t)
  {
  }

  lemma TextUnitPut(t: TextUnitTable, id: Id, x: TextUnit)
    requires TextUnitsOk(t) && id !in t.rows && x.extID !in t.byExtID
    ensures TextUnitsOk(t.(rows := t.rows[id := x], byExtID := t.byExtID[x.extID := id],
                           byDocID := t.byDocID[x.documentID := GroupOf(t.byDocID, x.documentID) + [id]]))
  {
    IndexAdd(t.rows, t.byExtID, TextUnitExt, id, x);
    GroupAdd(t.rows, t.byDocID, TextUnitParent, id, x);
  }

  /** An entity with an empty external id would be left out of the index. */
  method RestoreEntities(list: seq<(Id, Entity)>, ghost rows: map<Id, Entity>) returns (t: EntityTable)
    ensures t.vecs == map[] && t.index == None
    ensures Enumerates(list, rows) && KeysUnique(rows, EntityExt) && KeysUnique(rows, EntityTitle) && AllNamed(rows)
      ==> EntitiesOk(t) && t.rows == rows
  {
    hide KeysUnique, EntitiesOk, InUse, SoFar;
    ghost var good :=
      Enumerates(list, rows) && KeysUnique(rows, EntityExt) && KeysUnique(rows, EntityTitle) && AllNamed(rows);
    t := EntityTable(map[], map[], map[], map[], None);
    EmptyEntities(t);
    SoFarNone(list, rows);
    for i := 0 to |list|
      invariant t.vecs == map[] && t.index == None
      invariant good ==> EntitiesOk(t) && SoFar(t.rows, list, rows, i)
    {
      var id, x := list[i].0, list[i].1;
      if good {
        SoFarNext(t.rows, list, rows, i);
        NextKeyFree(t.rows, list, rows, i, EntityExt);
        NextKeyFree(t.rows, list, rows, i, EntityTitle);
        EntityLookup(t, x.extID, x.title);
        EntityPut(t, id, x);
      }
      t := t.(rows := t.rows[id := x], byTitle := t.byTitle[x.title := id]);
      if x.extID != "" {
        t := t.(byExtID := t.byExtID[x.extID := id]);
      }
    }
    if good {
      SoFarAll(t.rows, list, rows);
    }
  }

  lemma EmptyEntities(t: EntityTable)
    requires t == EntityTable(map[], map[], map[], map[], None)
    ensures EntitiesOk(t)
  {
  }

  lemma EntityPut(t: EntityTable, id: Id, x: Entity)
    requires EntitiesOk(t) && id !in t.rows && x.extID !in t.byExtID && x.title !in t.byTitle
    ensures EntitiesOk(t.(rows := t.rows[id := x], byTitle := t.byTitle[x.title := id],
                          byExtID := t.byExtID[x.extID := id]))
  {
  }

  method RestoreRelationships(list: seq<(Id, Relationship)>, ghost rows: map<Id, Relationship>)
      returns (t: RelationshipTable)
    ensures Enumerates(list, rows) && KeysUnique(rows, RelationshipExt) && KeysUnique(rows, RelationshipKey)
      ==> RelationshipsOk(t) && t.rows == rows
  {
    hide KeysUnique, RelationshipsOk, InUse, Enumerates, SoFar;
    ghost var good := Enumerates(list, rows) && KeysUnique(rows, RelationshipExt) && KeysUnique(rows, RelationshipKey);
    t := RelationshipTable(map[], map[], map[], map[], map[]);
    EmptyRelationships(t);
    SoFarNone(list, rows);
    for i := 0 to |list|
      invariant good ==> RelationshipsOk(t) && SoFar(t.rows, list, rows, i)
    {
      var id, x := list[i].0, list[i].1;
      var key := RelKey(x.sourceID, x.targetID, x.kind);
      ghost var before := t;
      if good {
        SoFarNext(t.rows, list, rows, i);
        NextKeyFree(t.rows, list, rows, i, RelationshipKey);
        if x.extID != "" {
          NextKeyFree(t.rows, list, rows, i, RelationshipExt);
        }
        RelationshipLookup(t, x.extID, key);
        RelationshipPut(t, id, x);
      }
      t := t.(rows := t.rows[id := x], bySourceTarget := t.bySourceTarget[key := id]);
      if x.extID != "" {
        t := t.(byExtID := t.byExtID[x.extID := id]);
      }
      t := t.(outEdges := t.outEdges[x.sourceID := GroupOf(t.outEdges, x.sourceID) + [id]],
              inEdges := t.inEdges[x.targetID := GroupOf(t.inEdges, x.targetID) + [id]]);
    }
    if good {
      SoFarAll(t.rows, list, rows);
    }
  }

  lemma EmptyRelationships(t: RelationshipTable)
    requires t == RelationshipTable(map[], map[], map[], map[], map[])
    ensures RelationshipsOk(t)
  {
  }

  lemma RelationshipPut(t: RelationshipTable, id: Id, x: Relationship)
    requires RelationshipsOk(t) && id !in t.rows && RelKey(x.sourceID, x.targetID, x.kind) !in t.bySourceTarget
    requires x.extID != "" ==> x.extID !in t.byExtID
    ensures RelationshipsOk(RelationshipTable(
                              t.rows[id := x], if x.extID == "" then t.byExtID else t.byExtID[x.extID := id],
                              t.bySourceTarget[RelKey(x.sourceID, x.targetID, x.kind) := id],
                              t.outEdges[x.sourceID := GroupOf(t.outEdges, x.sourceID) + [id]],
                              t.inEdges[x.targetID := GroupOf(t.inEdges, x.targetID) + [id]]))
  {
    IndexAdd(t.rows, t.byExtID, RelationshipExt, id, x);
    IndexAdd(t.rows, t.bySourceTarget, RelationshipKey, id, x);
    GroupAdd(t.rows, t.outEdges, RelationshipSource, id, x);
    GroupAdd(t.rows, t.inEdges, RelationshipTarget, id, x);
  }

  method RestoreCommunities(list: seq<(Id, Community)>, ghost rows: map<Id, Community>) returns (t: CommunityTable)
    ensures t.vecs == map[] && t.index == None
    ensures Enumerates(list, rows) && KeysUnique(rows, CommunityExt) ==> CommunitiesOk(t) && t.rows == rows
  {
    hide KeysUnique, CommunitiesOk, InUse, Enumerates, SoFar;
    ghost var good := Enumerates(list, rows) && KeysUnique(rows, CommunityExt);
    t := CommunityTable(map[], map[], map[], map[], None);
    NoCommunities(t);
    SoFarNone(list, rows);
    for i := 0 to |list|
      invariant t.vecs == map[] && t.index == None
      invariant good ==> CommunitiesOk(t) && SoFar(t.rows, list, rows, i)
    {
      var id, x := list[i].0, list[i].1;
      if good {
        SoFarNext(t.rows, list, rows, i);
        if x.extID != "" {
          NextKeyFree(t.rows, list, rows, i, CommunityExt);
        }
        CommunityLookup(t, x.extID);
        CommunityPut(t, id, x);
      }
      t := t.(rows := t.rows[id := x]);
      if x.extID != "" {
        t := t.(byExtID := t.byExtID[x.extID := id]);
      }
      t := t.(byLevel := t.byLevel[x.level := GroupOf(t.byLevel, x.level) + [id]]);
    }
    if good {
      SoFarAll(t.rows, list, rows);
    }
  }

  lemma NoCommunities(t: CommunityTable)
    requires t == CommunityTable(map[], map[], map[], map[], None)
    ensures CommunitiesOk(t)
  {
  }

  lemma CommunityPut(t: CommunityTable, id: Id, x: Community)
    requires CommunitiesOk(t) && id !in t.rows && (x.extID != "" ==> x.extID !in t.byExtID)
    ensures CommunitiesOk(t.(rows := t.rows[id := x],
                             byExtID := if x.extID == "" then t.byExtID else t.byExtID[x.extID := id],
                             byLevel := t.byLevel[x.level := GroupOf(t.byLevel, x.level) + [id]]))
  {
    IndexAdd(t.rows, t.byExtID, CommunityExt, id, x);
  }

  /** A fresh index holding every embedding, if each has the right length. */
  method RestoreVectors(vecs: map<Id, Vec>, dim: nat) returns (index: VectorIndex, ok: bool)
    ensures ok <==> forall i: Id :: i in vecs ==> |vecs[i]| == dim
    ensures ok ==> VectorsOk(vecs, index)
  {
    ok := true;
    if |vecs| == 0 {
      return None, true;
    }
    index := Some(map[]);
    var rest: set<Id> := vecs.Keys;
    while rest != {}
      invariant rest <= vecs.Keys && index.Some?
      invariant index.value.Keys == vecs.Keys - rest
      invariant forall i: Id :: i in index.value ==> index.value[i] == vecs[i] && |vecs[i]| == dim
      decreases |rest|
    {
      var i: Id :| i in rest;
      var added := AddVector(index, dim, i, vecs[i]);
      if added.None? {
        return index, false;
      }
      index := added;
      rest := rest - {i};
    }
  }
}
