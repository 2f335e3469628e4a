/**
 The session store as an object: tables with their indexes, id counters and usage counters,
 updated in place. Its methods are proved against the operations on the contents.
 */
module SessionStores {

  import opened Collections
  import opened Tables
  import opened Wrappers
  import opened StoreContents
  import opened StoreInvariant
  import opened StoreWrites
  import opened StoreRuns
  import opened StoreTables
  import opened StoreBatches
  import opened StoreBulk
  import opened StoreSnapshots

  /** The call succeeds with what the operation gives, or fails and changes nothing. */
  ghost predicate Does(before: Contents, operation: Option<Contents>, after: Contents, ok: bool) {
    match operation case None => !ok && after == before case Some(c) => ok && after == c
  }

  lemma NextIdsAreFree(cfg: Config, c: Contents)
    requires WellFormed(cfg, c)
    ensures c.counters.document + 1 !in c.documents && c.counters.textUnit + 1 !in c.textUnits
    ensures c.counters.entity + 1 !in c.entities && c.counters.relationship + 1 !in c.relationships
    ensures c.counters.community + 1 !in c.communities
  {
  }

  class SessionStore {
    const cfg: Config
    var documents: DocumentTable
    var textUnits: TextUnitTable
    var entities: EntityTable
    var relationships: RelationshipTable
    var communities: CommunityTable
    var counters: Counters
    var usage: Usage

    ghost function Contents(): Contents
      reads this
    {
      StoreContents.Contents(documents.rows, textUnits.rows, entities.rows, relationships.rows, communities.rows,
                             textUnits.vecs, entities.vecs, communities.vecs, counters)
    }

    ghost predicate TablesOk()
      reads this
    {
      && DocumentsOk(documents) && TextUnitsOk(textUnits) && EntitiesOk(entities)
      && RelationshipsOk(relationships) && CommunitiesOk(communities)
    }

    /** Indexes are inverses of the tables, and the usage is right. */
    ghost predicate Counted()
      reads this
    {
      TablesOk() && usage == UsageOf(Contents())
    }

    /** And the contents are well-formed. */
    ghost predicate Valid()
      reads this
    {
      Counted() && WellFormed(cfg, Contents())
    }

    constructor (cfg: Config)
      ensures Valid() && this.cfg == cfg && Contents() == Empty()
    {
      hide WellFormed, UsageOf, DocumentsOk, TextUnitsOk, EntitiesOk, RelationshipsOk, CommunitiesOk, IsIndex, IsGrouping, Total;
      this.cfg := cfg;
      documents := DocumentTable(map[], map[], map[]);
      textUnits := TextUnitTable(map[], map[], map[], map[], None);
      entities := EntityTable(map[], map[], map[], map[], None);
      relationships := RelationshipTable(map[], map[], map[], map[], map[]);
      communities := CommunityTable(map[], map[], map[], map[], None);
      counters, usage := Counters(0, 0, 0, 0, 0), Usage(0, 0, 0, 0);
      new;
      EmptyIsWellFormed(cfg);
      EmptyTables();
    }

    static lemma EmptyTables()
      ensures DocumentsOk(DocumentTable(map[], map[], map[]))
      ensures TextUnitsOk(TextUnitTable(map[], map[], map[], map[], None))
      ensures EntitiesOk(EntityTable(map[], map[], map[], map[], None))
      ensures RelationshipsOk(RelationshipTable(map[], map[], map[], map[], map[]))
      ensures CommunitiesOk(CommunityTable(map[], map[], map[], map[], None))
    {
    }

    // -------------------------------------------------------------- quotas and usage

    method CheckAdmission(entities: int, relationships: int, documents: int, memory: int) returns (ok: bool)
      ensures ok <==> Admits(cfg.quotas, usage, entities, relationships, documents, memory)
    {
      var q := cfg.quotas;
      if documents > 0 {
        if q.maxDocuments > 0 && usage.documents + documents > q.maxDocuments {
          return false;
        }
      }
      if entities > 0 {
        if q.maxEntities > 0 && usage.entities + entities > q.maxEntities {
          return false;
        }
      }
      if relationships > 0 {
        if q.maxRelationships > 0 && usage.relationships + relationships > q.maxRelationships {
          return false;
        }
      }
      if memory > 0 {
        if q.maxMemoryBytes > 0 && usage.memory + memory > q.maxMemoryBytes {
          return false;
        }
      }
      return true;
    }

    method RecordAdmission(entities: int, relationships: int, documents: int, memory: int)
      modifies this`usage
      ensures entities >= 0 && relationships >= 0 && documents >= 0 && memory >= 0 ==>
        usage == Plus(old(usage), entities, relationships, documents, memory)
    {
      if documents > 0 {
        usage := usage.(documents := usage.documents + documents);
      }
      if entities > 0 {
        usage := usage.(entities := usage.entities + entities);
      }
      if relationships > 0 {
        usage := usage.(relationships := usage.relationships + relationships);
      }
      if memory > 0 {
        usage := usage.(memory := usage.memory + memory);
      }
    }

    /** Counters are decremented and clamped at zero; with right counters the clamp never acts. */
    method Release(entities: nat, relationships: nat, documents: nat, memory: nat, ghost left: Usage)
      requires usage == Plus(left, entities, relationships, documents, memory)
      requires left.entities >= 0 && left.relationships >= 0 && left.documents >= 0 && left.memory >= 0
      modifies this`usage
      ensures usage == left
    {
      var u := usage;
      u := Usage(u.entities - entities, u.relationships - relationships, u.documents - documents, u.memory - memory);
      usage := Usage(if u.entities < 0 then 0 else u.entities, if u.relationships < 0 then 0 else u.relationships,
                     if u.documents < 0 then 0 else u.documents, if u.memory < 0 then 0 else u.memory);
    }

    static lemma UsageNonNegative(c: Contents)
      ensures var u := UsageOf(c); u.entities >= 0 && u.relationships >= 0 && u.documents >= 0 && u.memory >= 0
    {
    }

    // -------------------------------------------------------------- documents

    method AddDocument(x: DocumentInput, now: int) returns (r: Option<Id>)
      requires Valid()
      modifies this
      ensures Valid()
      ensures Does(old(Contents()), StoreContents.AddDocument(cfg, old(Contents()), x, now), Contents(), r.Some?)
      ensures r.Some? ==> r.value == old(counters).document + 1
    {
      hide WellFormed, UsageOf, DocumentsOk, TextUnitsOk, EntitiesOk, RelationshipsOk, CommunitiesOk, InUse;
      ghost var c := Contents();
      DocumentLookup(documents, x.extID);
      if cfg.blank(x.extID) || x.extID in documents.byExtID {
        return None;
      }
      var d := NewDocument(x, now);
      var admitted := CheckAdmission(0, 0, 1, DocumentCost(d));
      if !admitted {
        return None;
      }
      NextIdsAreFree(cfg, c);
      var id := counters.document + 1;
      counters := counters.(document := id);
      documents := InsertDocument(documents, id, d);
      RecordAdmission(0, 0, 1, DocumentCost(d));
      PutDocumentKeeps(cfg, c, id, d);
      PutDocumentUsage(c, id, d);
      return Some(id);
    }

    method PrepareDocument(x: DocumentInput, now: int) returns (r: Option<Item<Document>>)
      requires Valid()
      ensures r == StoreContents.PrepareDocument(cfg, Contents(), x, now)
    {
      hide WellFormed, UsageOf, DocumentsOk, TextUnitsOk, EntitiesOk, RelationshipsOk, CommunitiesOk, InUse;
      DocumentLookup(documents, x.extID);
      if cfg.blank(x.extID) || x.extID in documents.byExtID {
        return None;
      }
      var d := NewDocument(x, now);
      var admitted := CheckAdmission(0, 0, 1, DocumentCost(d));
      return if admitted then Some(Item(counters.document + 1, d, [])) else None;
    }

    method ApplyDocument(p: Item<Document>) returns (ok: bool)
      requires Valid()
      modifies this
      ensures Valid()
      ensures Does(old(Contents()), StoreContents.ApplyDocument(old(Contents()), p), Contents(), ok)
    {
      hide WellFormed, UsageOf, DocumentsOk, TextUnitsOk, EntitiesOk, RelationshipsOk, CommunitiesOk, InUse;
      ghost var c := Contents();
      DocumentLookup(documents, p.row.extID);
      if p.id == 0 || p.id in documents.rows || p.row.extID in documents.byExtID {
        return false;
      }
      documents := InsertDocument(documents, p.id, p.row);
      counters := counters.(document := Max(counters.document, p.id));
      RecordAdmission(0, 0, 1, DocumentCost(p.row));
      PutDocumentKeeps(cfg, c, p.id, p.row);
      PutDocumentUsage(c, p.id, p.row);
      return true;
    }

    method ValidateDeleteDocument(id: Id) returns (ok: bool)
      requires Valid()
      ensures ok <==> StoreContents.DeleteDocument(Contents(), id).Some?
    {
      hide WellFormed, UsageOf, DocumentsOk, TextUnitsOk, EntitiesOk, RelationshipsOk, CommunitiesOk, InUse;
      TextUnitLookup(textUnits, "", id);
      ok := id in documents.rows && |GroupOf(textUnits.byDocID, id)| == 0;
    }

    method DeleteDocumentChecked(id: Id) returns (ok: bool)
      requires Valid()
      modifies this
      ensures Valid()
      ensures Does(old(Contents()), StoreContents.DeleteDocument(old(Contents()), id), Contents(), ok)
    {
      hide WellFormed, UsageOf, DocumentsOk, TextUnitsOk, EntitiesOk, RelationshipsOk, CommunitiesOk, InUse;
      ghost var c := Contents();
      TextUnitLookup(textUnits, "", id);
      if id !in documents.rows || |GroupOf(textUnits.byDocID, id)| > 0 {
        return false;
      }
      var d := documents.rows[id];
      DeleteDocumentKeeps(cfg, c, id);
      DeleteDocumentUsage(c, id);
      documents := RemoveDocument(documents, id);
      UsageNonNegative(Contents());
      Release(0, 0, 1, DocumentCost(d), UsageOf(Contents()));
      return true;
    }

    // -------------------------------------------------------------- text units

    method AddTextUnit(x: TextUnitInput, now: int) returns (r: Option<Id>)
      requires Valid()
      modifies this
      ensures Valid()
      ensures Does(old(Contents()), StoreContents.AddTextUnit(cfg, old(Contents()), x, now), Contents(), r.Some?)
      ensures r.Some? ==> r.value == old(counters).textUnit + 1
    {
      hide WellFormed, UsageOf, DocumentsOk, TextUnitsOk, EntitiesOk, RelationshipsOk, CommunitiesOk, InUse;
      ghost var c := Contents();
      TextUnitLookup(textUnits, x.extID, x.documentID);
      if cfg.blank(x.extID) || x.documentID !in documents.rows {
        return None;
      }
      var u := NewTextUnit(x, now);
      if x.extID in textUnits.byExtID {
        return None;
      }
      var finite := ValidateOptionalEmbedding(cfg, x.embedding);
      if !finite {
        return None;
      }
      var admitted := CheckAdmission(0, 0, 0, TextUnitCost(u, x.embedding));
      if !admitted {
        return None;
      }
      NextIdsAreFree(cfg, c);
      var id := counters.textUnit + 1;
      PutSmallTextUnit(cfg, c, id, u, x.embedding);
      counters := counters.(textUnit := id);
      var ok;
      textUnits, ok := InsertTextUnit(textUnits, cfg.dim, id, u, x.embedding);
      RecordAdmission(0, 0, 0, TextUnitCost(u, x.embedding));
      return Some(id);
    }

    /** The new row keeps the contents well-formed and the usage right. */
    static lemma PutSmallTextUnit(cfg: Config, c: Contents, id: Id, u: TextUnit, vec: Vec)
      requires WellFormed(cfg, c) && id != 0 && id !in c.textUnits && !InUse(c.textUnits, TextUnitExt, u.extID)
      requires u.documentID in c.documents && u.entityIDs == [] && IndexTakes(cfg, vec)
      ensures WellFormed(cfg, PutTextUnit(c, id, u, vec))
      ensures UsageOf(PutTextUnit(c, id, u, vec)) == Plus(UsageOf(c), 0, 0, 0, TextUnitCost(u, vec))
    {
      hide UsageOf;
      PutTextUnitKeeps(cfg, c, id, u, vec);
      PutTextUnitUsage(c, id, u, vec);
    }

    method PrepareTextUnit(x: TextUnitInput, now: int) returns (r: Option<Item<TextUnit>>)
      requires Valid()
      ensures r == StoreContents.PrepareTextUnit(cfg, Contents(), x, now)
    {
      hide WellFormed, UsageOf, DocumentsOk, TextUnitsOk, EntitiesOk, RelationshipsOk, CommunitiesOk, InUse;
      TextUnitLookup(textUnits, x.extID, x.documentID);
      if cfg.blank(x.extID) || x.documentID !in documents.rows {
        return None;
      }
      var u := NewTextUnit(x, now);
      if x.extID in textUnits.byExtID {
        return None;
      }
      var finite := ValidateOptionalEmbedding(cfg, x.embedding);
      if !finite {
        return None;
      }
      var admitted := CheckAdmission(0, 0, 0, TextUnitCost(u, x.embedding));
      return if admitted then Some(Item(counters.textUnit + 1, u, x.embedding)) else None;
    }

    /**
     A logged row; if the vector index refuses its embedding, nothing has changed. A row with
     links of its own is taken in as it is, and then the store is no longer right.
     */
    method ApplyTextUnit(p: Item<TextUnit>) returns (ok: bool)
      requires Valid()
      modifies this
      ensures Counted() && (Valid() <==> ok ==> p.row.entityIDs == [])
      ensures Does(old(Contents()), StoreContents.ApplyTextUnit(cfg, old(Contents()), p), Contents(), ok)
    {
      hide WellFormed, UsageOf, DocumentsOk, TextUnitsOk, EntitiesOk, RelationshipsOk, CommunitiesOk, InUse;
      ghost var c := Contents();
      TextUnitLookup(textUnits, p.row.extID, p.row.documentID);
      if p.id == 0 || p.row.documentID !in documents.rows || p.id in textUnits.rows || p.row.extID in textUnits.byExtID {
        return false;
      }
      textUnits, ok := InsertTextUnit(textUnits, cfg.dim, p.id, p.row, p.vec);
      if !ok {
        return false;
      }
      counters := counters.(textUnit := Max(counters.textUnit, p.id));
      RecordAdmission(0, 0, 0, TextUnitCost(p.row, p.vec));
      ApplyKeeps(cfg, c, TextUnitLog(p));
    }

    method ValidateDeleteTextUnit(id: Id) returns (ok: bool)
      ensures ok <==> StoreContents.DeleteTextUnit(Contents(), id).Some?
    {
      ok := id in textUnits.rows && |textUnits.rows[id].entityIDs| == 0;
    }

    method DeleteTextUnitChecked(id: Id) returns (ok: bool)
      requires Valid()
      modifies this
      ensures Valid()
      ensures Does(old(Contents()), StoreContents.DeleteTextUnit(old(Contents()), id), Contents(), ok)
    {
      hide WellFormed, UsageOf, DocumentsOk, TextUnitsOk, EntitiesOk, RelationshipsOk, CommunitiesOk, InUse;
      ghost var c := Contents();
      if id !in textUnits.rows || |textUnits.rows[id].entityIDs| > 0 {
        return false;
      }
      var u, vec := textUnits.rows[id], VecOf(textUnits.vecs, id);
      DeleteTextUnitKeeps(cfg, c, id);
      DeleteTextUnitUsage(c, id);
      textUnits := RemoveTextUnit(textUnits, id);
      UsageNonNegative(Contents());
      Release(0, 0, 0, TextUnitCost(u, vec), UsageOf(Contents()));
      return true;
    }

    // -------------------------------------------------------------- entities

    method AddEntity(x: EntityInput, now: int) returns (r: Option<Id>)
      requires Valid()
      modifies this
      ensures Valid()
      ensures Does(old(Contents()), StoreContents.AddEntity(cfg, old(Contents()), x, now), Contents(), r.Some?)
      ensures r.Some? ==> r.value == old(counters).entity + 1
    {
      hide WellFormed, UsageOf, DocumentsOk, TextUnitsOk, EntitiesOk, RelationshipsOk, CommunitiesOk, InUse;
      ghost var c := Contents();
      EntityLookup(entities, x.extID, cfg.normal(x.title));
      if cfg.blank(x.extID) {
        return None;
      }
      var e := NewEntity(cfg, x, now);
      if e.title in entities.byTitle || x.extID in entities.byExtID {
        return None;
      }
      var finite := ValidateOptionalEmbedding(cfg, x.embedding);
      if !finite {
        return None;
      }
      var admitted := CheckAdmission(1, 0, 0, EntityCost(e, x.embedding));
      if !admitted {
        return None;
      }
      NextIdsAreFree(cfg, c);
      var id := counters.entity + 1;
      PutSmallEntity(cfg, c, id, e, x.embedding);
      counters := counters.(entity := id);
      var ok;
      entities, ok := InsertEntity(entities, cfg.dim, id, e, x.embedding);
      RecordAdmission(1, 0, 0, EntityCost(e, x.embedding));
      return Some(id);
    }

    /** The new row keeps the contents well-formed and the usage right. */
    static lemma PutSmallEntity(cfg: Config, c: Contents, id: Id, e: Entity, vec: Vec)
      requires WellFormed(cfg, c) && id != 0 && id !in c.entities && !InUse(c.entities, EntityExt, e.extID)
      requires !InUse(c.entities, EntityTitle, e.title) && e.textUnitIDs == [] && IndexTakes(cfg, vec)
      ensures WellFormed(cfg, PutEntity(c, id, e, vec))
      ensures UsageOf(PutEntity(c, id, e, vec)) == Plus(UsageOf(c), 1, 0, 0, EntityCost(e, vec))
    {
      hide UsageOf;
      PutEntityKeeps(cfg, c, id, e, vec);
      PutEntityUsage(c, id, e, vec);
    }

    method PrepareEntity(x: EntityInput, now: int) returns (r: Option<Item<Entity>>)
      requires Valid()
      ensures r == StoreContents.PrepareEntity(cfg, Contents(), x, now)
    {
      hide WellFormed, UsageOf, DocumentsOk, TextUnitsOk, EntitiesOk, RelationshipsOk, CommunitiesOk, InUse;
      EntityLookup(entities, x.extID, cfg.normal(x.title));
      if cfg.blank(x.extID) {
        return None;
      }
      var e := NewEntity(cfg, x, now);
      if e.title in entities.byTitle || x.extID in entities.byExtID {
        return None;
      }
      var finite := ValidateOptionalEmbedding(cfg, x.embedding);
      if !finite {
        return None;
      }
      var admitted := CheckAdmission(1, 0, 0, EntityCost(e, x.embedding));
      return if admitted then Some(Item(counters.entity + 1, e, x.embedding)) else None;
    }

    /** As for text units. */
    method ApplyEntity(p: Item<Entity>) returns (ok: bool)
      requires Valid()
      modifies this
      ensures Counted() && (Valid() <==> ok ==> p.row.textUnitIDs == [])
      ensures Does(old(Contents()), StoreContents.ApplyEntity(cfg, old(Contents()), p), Contents(), ok)
    {
      hide WellFormed, UsageOf, DocumentsOk, TextUnitsOk, EntitiesOk, RelationshipsOk, CommunitiesOk, InUse;
      ghost var c := Contents();
      EntityLookup(entities, p.row.extID, p.row.title);
      if p.id == 0 || p.id in entities.rows || p.row.extID in entities.byExtID || p.row.title in entities.byTitle {
        return false;
      }
      entities, ok := InsertEntity(entities, cfg.dim, p.id, p.row, p.vec);
      if !ok {
        return false;
      }
      counters := counters.(entity := Max(counters.entity, p.id));
      RecordAdmission(1, 0, 0, EntityCost(p.row, p.vec));
      ApplyKeeps(cfg, c, EntityLog(p));
    }

    method CommunityReferencesEntity(id: Id) returns (b: bool)
      ensures b <==> InSomeCommunity(communities.rows, id)
    {
      var rest := communities.rows.Keys;
      while rest != {}
        invariant rest <= communities.rows.Keys
        invariant forall m: Id :: m in communities.rows && m !in rest ==> id !in communities.rows[m].entityIDs
        decreases |rest|
      {
        var m: Id :| m in rest;
        if id in communities.rows[m].entityIDs {
          return true;
        }
        rest := rest - {m};
      }
      return false;
    }

    method ValidateDeleteEntity(id: Id) returns (ok: bool)
      requires Valid()
      ensures ok <==> StoreContents.DeleteEntity(Contents(), id).Some?
    {
      hide WellFormed, UsageOf, DocumentsOk, TextUnitsOk, EntitiesOk, RelationshipsOk, CommunitiesOk, InUse;
      EdgeLookup(relationships, id);
      if id !in entities.rows || |entities.rows[id].textUnitIDs| > 0 {
        return false;
      }
      if |GroupOf(relationships.outEdges, id)| > 0 || |GroupOf(relationships.inEdges, id)| > 0 {
        return false;
      }
      var referenced := CommunityReferencesEntity(id);
      ok := !referenced;
    }

    method DeleteEntityChecked(id: Id) returns (ok: bool)
      requires Valid()
      modifies this
      ensures Valid()
      ensures Does(old(Contents()), StoreContents.DeleteEntity(old(Contents()), id), Contents(), ok)
    {
      hide WellFormed, UsageOf, DocumentsOk, TextUnitsOk, EntitiesOk, RelationshipsOk, CommunitiesOk, InUse;
      ghost var c := Contents();
      ok := ValidateDeleteEntity(id);
      if !ok {
        return false;
      }
      var e, vec := entities.rows[id], VecOf(entities.vecs, id);
      DeleteEntityKeeps(cfg, c, id);
      DeleteEntityUsage(c, id);
      entities := RemoveEntity(entities, id);
      UsageNonNegative(Contents());
      Release(1, 0, 0, EntityCost(e, vec), UsageOf(Contents()));
    }

    // -------------------------------------------------------------- relationships

    method AddRelationship(x: RelationshipInput, now: int) returns (r: Option<Id>)
      requires Valid()
      modifies this
      ensures Valid()
      ensures Does(old(Contents()), StoreContents.AddRelationship(cfg, old(Contents()), x, now), Contents(), r.Some?)
      ensures r.Some? ==> r.value == old(counters).relationship + 1
    {
      hide WellFormed, UsageOf, DocumentsOk, TextUnitsOk, EntitiesOk, RelationshipsOk, CommunitiesOk, InUse;
      ghost var c := Contents();
      var key := RelKey(x.sourceID, x.targetID, x.kind);
      RelationshipLookup(relationships, x.extID, key);
      if x.sourceID !in entities.rows || x.targetID !in entities.rows || key in relationships.bySourceTarget {
        return None;
      }
      if x.extID != "" && x.extID in relationships.byExtID {
        return None;
      }
      var q := NewRelationship(x, now);
      var admitted := CheckAdmission(0, 1, 0, RelationshipCost(q));
      if !admitted {
        return None;
      }
      NextIdsAreFree(cfg, c);
      var id := counters.relationship + 1;
      counters := counters.(relationship := id);
      relationships := InsertRelationship(relationships, id, q);
      RecordAdmission(0, 1, 0, RelationshipCost(q));
      PutRelationshipKeeps(cfg, c, id, q);
      PutRelationshipUsage(c, id, q);
      return Some(id);
    }

    method PrepareRelationship(x: RelationshipInput, now: int) returns (r: Option<Item<Relationship>>)
      requires Valid()
      ensures r == StoreContents.PrepareRelationship(cfg, Contents(), x, now)
    {
      hide WellFormed, UsageOf, DocumentsOk, TextUnitsOk, EntitiesOk, RelationshipsOk, CommunitiesOk, InUse;
      var key := RelKey(x.sourceID, x.targetID, x.kind);
      RelationshipLookup(relationships, x.extID, key);
      if x.sourceID !in entities.rows || x.targetID !in entities.rows || key in relationships.bySourceTarget {
        return None;
      }
      if x.extID != "" && x.extID in relationships.byExtID {
        return None;
      }
      var q := NewRelationship(x, now);
      var admitted := CheckAdmission(0, 1, 0, RelationshipCost(q));
      return if admitted then Some(Item(counters.relationship + 1, q, [])) else None;
    }

    method ApplyRelationship(p: Item<Relationship>) returns (ok: bool)
      requires Valid()
      modifies this
      ensures Valid()
      ensures Does(old(Contents()), StoreContents.ApplyRelationship(old(Contents()), p), Contents(), ok)
    {
      hide WellFormed, UsageOf, DocumentsOk, TextUnitsOk, EntitiesOk, RelationshipsOk, CommunitiesOk, InUse;
      ghost var c := Contents();
      var key := RelKey(p.row.sourceID, p.row.targetID, p.row.kind);
      RelationshipLookup(relationships, p.row.extID, key);
      if p.id == 0 || p.row.sourceID !in entities.rows || p.row.targetID !in entities.rows
        || p.id in relationships.rows || key in relationships.bySourceTarget {
        return false;
      }
      if p.row.extID != "" && p.row.extID in relationships.byExtID {
        return false;
      }
      relationships := InsertRelationship(relationships, p.id, p.row);
      counters := counters.(relationship := Max(counters.relationship, p.id));
      RecordAdmission(0, 1, 0, RelationshipCost(p.row));
      PutRelationshipKeeps(cfg, c, p.id, p.row);
      PutRelationshipUsage(c, p.id, p.row);
      return true;
    }

    method CommunityReferencesRelationship(id: Id) returns (b: bool)
      ensures b <==> RelInSomeCommunity(communities.rows, id)
    {
      var rest := communities.rows.Keys;
      while rest != {}
        invariant rest <= communities.rows.Keys
        invariant forall m: Id :: m in communities.rows && m !in rest ==> id !in communities.rows[m].relationshipIDs
        decreases |rest|
      {
        var m: Id :| m in rest;
        if id in communities.rows[m].relationshipIDs {
          return true;
        }
        rest := rest - {m};
      }
      return false;
    }

    method ValidateDeleteRelationship(id: Id) returns (ok: bool)
      ensures ok <==> StoreContents.DeleteRelationship(Contents(), id).Some?
    {
      if id !in relationships.rows {
        return false;
      }
      var referenced := CommunityReferencesRelationship(id);
      ok := !referenced;
    }

    method DeleteRelationshipChecked(id: Id) returns (ok: bool)
      requires Valid()
      modifies this
      ensures Valid()
      ensures Does(old(Contents()), StoreContents.DeleteRelationship(old(Contents()), id), Contents(), ok)
    {
      hide WellFormed, UsageOf, DocumentsOk, TextUnitsOk, EntitiesOk, RelationshipsOk, CommunitiesOk, InUse;
      ghost var c := Contents();
      ok := ValidateDeleteRelationship(id);
      if !ok {
        return false;
      }
      var q := relationships.rows[id];
      DeleteRelationshipKeeps(cfg, c, id);
      DeleteRelationshipUsage(c, id);
      relationships := RemoveRelationship(relationships, id);
      UsageNonNegative(Contents());
      Release(0, 1, 0, RelationshipCost(q), UsageOf(Contents()));
    }

    // -------------------------------------------------------------- links

    method LinkTextUnitToEntity(textUnitID: Id, entityID: Id) returns (ok: bool)
      requires Valid()
      modifies this
      ensures Valid()
      ensures Does(old(Contents()), Link(old(Contents()), textUnitID, entityID), Contents(), ok)
    {
      hide WellFormed, UsageOf, DocumentsOk, TextUnitsOk, EntitiesOk, RelationshipsOk, CommunitiesOk, InUse;
      ghost var c := Contents();
      if textUnitID !in textUnits.rows || entityID !in entities.rows {
        return false;
      }
      LinkKeeps(cfg, c, textUnitID, entityID);
      LinkUsage(c, textUnitID, entityID);
      var u, e := textUnits.rows[textUnitID], entities.rows[entityID];
      u := u.(entityIDs := AddTo(u.entityIDs, entityID));
      e := e.(textUnitIDs := AddTo(e.textUnitIDs, textUnitID));
      TextUnitChanged(textUnits, textUnitID, u);
      EntityChanged(entities, entityID, e);
      textUnits := textUnits.(rows := textUnits.rows[textUnitID := u]);
      entities := entities.(rows := entities.rows[entityID := e]);
      return true;
    }

    /** What an update of a description and embedding does to the entity table. */
    static function Updated(t: EntityTable, dim: nat, id: Id, description: string, vec: Vec): EntityTable
      requires id in t.rows
    {
      var rows := t.rows[id := t.rows[id].(description := description)];
      if vec == [] || t.index.None? then t.(rows := rows)
      else if |vec| == dim then t.(rows := rows, vecs := t.vecs[id := vec], index := Some(t.index.value[id := vec]))
      else t.(rows := rows, index := RemoveVector(t.index, id))
    }

    /** The new description and the embedding the entity then has take as much as the old ones. */
    static predicate SameEstimate(t: EntityTable, dim: nat, id: Id, description: string, vec: Vec)
      requires id in t.rows
    {
      var kept := VecOf(t.vecs, id);
      var next := if vec != [] && t.index.Some? && |vec| == dim then vec else kept;
      |description| + 4 * |next| == |t.rows[id].description| + 4 * |kept|
    }

    /** The vector index gave up an embedding of the entity for one it then refused. */
    static predicate LosesVector(t: EntityTable, dim: nat, id: Id, vec: Vec) {
      vec != [] && t.index.Some? && |vec| != dim && id in t.vecs
    }

    /**
     The description changes whatever becomes of the embedding, and the estimate of the
     memory is not adjusted. The store stays right exactly when what is passed takes as much
     as what it replaces and the index does not lose an embedding to one it refuses.
     */
    method UpdateEntityDescription(id: Id, description: string, vec: Vec) returns (ok: bool)
      requires Valid()
      modifies this
      ensures usage == old(usage)
      ensures id !in old(entities).rows ==> !ok && Valid() && Contents() == old(Contents())
      ensures id in old(entities).rows ==>
        && entities == Updated(old(entities), cfg.dim, id, description, vec)
        && Contents() == old(Contents()).(entities := entities.rows, entityVecs := entities.vecs)
        && (ok <==> vec == [] || old(entities).index.None? || |vec| == cfg.dim)
        && (Valid() <==>
              SameEstimate(old(entities), cfg.dim, id, description, vec) && !LosesVector(old(entities), cfg.dim, id, vec))
    {
      hide WellFormed, UsageOf, DocumentsOk, TextUnitsOk, EntitiesOk, RelationshipsOk, CommunitiesOk, Updated, SameEstimate,
        LosesVector;
      if id !in entities.rows {
        return false;
      }
      ghost var c, t := Contents(), entities;
      entities, ok := UpdateRow(entities, cfg.dim, id, description, vec);
      UpdateOutcome(cfg, c, t, id, description, vec, entities, Contents());
    }

    static method UpdateRow(t0: EntityTable, dim: nat, id: Id, description: string, vec: Vec)
        returns (t: EntityTable, ok: bool)
      requires id in t0.rows
      ensures t == Updated(t0, dim, id, description, vec)
      ensures ok <==> vec == [] || t0.index.None? || |vec| == dim
    {
      t := t0.(rows := t0.rows[id := t0.rows[id].(description := description)]);
      ok := true;
      if |vec| > 0 && t.index.Some? {
        t := t.(index := RemoveVector(t.index, id));
        var added := AddVector(t.index, dim, id, vec);
        if added.None? {
          ok := false;
        } else {
          assert (t0.index.value - {id})[id := vec] == t0.index.value[id := vec];
          t := t.(index := added, vecs := t.vecs[id := vec]);
        }
      }
    }

    static lemma UpdateOutcome(cfg: Config, c: Contents, t: EntityTable, id: Id, description: string, vec: Vec,
                               u: EntityTable, d: Contents)
      requires WellFormed(cfg, c) && EntitiesOk(t) && c.entities == t.rows && c.entityVecs == t.vecs && id in t.rows
      requires u == Updated(t, cfg.dim, id, description, vec)
      requires d == c.(entities := u.rows, entityVecs := u.vecs)
      ensures WellFormed(cfg, d)
      ensures EntitiesOk(u) <==> !LosesVector(t, cfg.dim, id, vec)
      ensures UsageOf(d) == UsageOf(c) <==> SameEstimate(t, cfg.dim, id, description, vec)
    {
      hide EntitiesOk, WellFormed, UsageOf, VecsFit, LosesVector, SameEstimate, EntityCost, Updated, VecOf;
      UpdateTable(t, cfg.dim, id, description, vec);
      UpdateCost(t, cfg.dim, id, description, vec);
      VecsAsBefore(cfg, c);
      if vec != [] && |vec| == cfg.dim {
        UpdateFits(cfg, c, id, vec);
      }
      assert u.vecs - {id} == t.vecs - {id};
      UpdateUsage(c, id, u.rows[id], u.vecs, d);
      UpdateKeeps(cfg, c, id, u.rows[id], u.vecs, d);
    }

    static lemma UpdateCost(t: EntityTable, dim: nat, id: Id, description: string, vec: Vec)
      requires id in t.rows
      ensures var u := Updated(t, dim, id, description, vec);
        && u.rows == t.rows[id := t.rows[id].(description := description)]
        && u.vecs == (if vec != [] && t.index.Some? && |vec| == dim then t.vecs[id := vec] else t.vecs)
        && (EntityCost(u.rows[id], VecOf(u.vecs, id)) == EntityCost(t.rows[id], VecOf(t.vecs, id)) <==>
              SameEstimate(t, dim, id, description, vec))
    {
    }

    static lemma UpdateTable(t: EntityTable, dim: nat, id: Id, description: string, vec: Vec)
      requires EntitiesOk(t) && id in t.rows
      ensures EntitiesOk(Updated(t, dim, id, description, vec)) <==> !LosesVector(t, dim, id, vec)
    {
      hide IsIndex;
      var u := Updated(t, dim, id, description, vec);
      EntityChanged(t, id, u.rows[id]);
    }

    static lemma UpdateMemory(rows: map<Id, Entity>, vecs: map<Id, Vec>, id: Id, e: Entity, newVecs: map<Id, Vec>)
      requires id in rows && newVecs - {id} == vecs - {id}
      ensures EntityMemory(rows[id := e], newVecs)
           == EntityMemory(rows, vecs) + EntityCost(e, VecOf(newVecs, id)) - EntityCost(rows[id], VecOf(vecs, id))
    {
      hide EntityMemory;
      EntityMemoryDrop(rows, vecs, id);
      EntityMemoryDrop(rows[id := e], newVecs, id);
      assert rows[id := e] - {id} == rows - {id};
    }

    static lemma UpdateUsage(c: Contents, id: Id, e: Entity, newVecs: map<Id, Vec>, d: Contents)
      requires id in c.entities && newVecs - {id} == c.entityVecs - {id}
      requires d == c.(entities := c.entities[id := e], entityVecs := newVecs)
      ensures UsageOf(d) == Plus(UsageOf(c), 0, 0, 0,
                                 EntityCost(e, VecOf(newVecs, id)) - EntityCost(c.entities[id], VecOf(c.entityVecs, id)))
    {
      hide DocumentMemory, TextUnitMemory, EntityMemory, RelationshipMemory, CommunityMemory;
      UpdateMemory(c.entities, c.entityVecs, id, e, newVecs);
    }

    static lemma UpdateKeeps(cfg: Config, c: Contents, id: Id, e: Entity, newVecs: map<Id, Vec>, d: Contents)
      requires WellFormed(cfg, c) && id in c.entities && VecsFit(c.entities, newVecs, cfg.dim)
      requires e == c.entities[id].(description := e.description)
      requires d == c.(entities := c.entities[id := e], entityVecs := newVecs)
      ensures WellFormed(cfg, d)
    {
      hide KeysOk, ReferencesOk;
      UpdateKeys(c, id, e, d);
      UpdateReferences(c, id, e, d);
    }

    static lemma UpdateFits(cfg: Config, c: Contents, id: Id, vec: Vec)
      requires WellFormed(cfg, c) && id in c.entities && vec != [] && |vec| == cfg.dim
      ensures VecsFit(c.entities, c.entityVecs[id := vec], cfg.dim)
    {
      hide KeysOk, ReferencesOk, CountersOk;
    }

    static lemma VecsAsBefore(cfg: Config, c: Contents)
      requires WellFormed(cfg, c)
      ensures VecsFit(c.entities, c.entityVecs, cfg.dim)
    {
    }

    static lemma UpdateKeys(c: Contents, id: Id, e: Entity, d: Contents)
      requires KeysOk(c) && id in c.entities && e.extID == c.entities[id].extID && e.title == c.entities[id].title
      requires d == c.(entities := c.entities[id := e], entityVecs := d.entityVecs)
      ensures KeysOk(d)
    {
    }

    static lemma UpdateReferences(c: Contents, id: Id, e: Entity, d: Contents)
      requires ReferencesOk(c) && id in c.entities && e.textUnitIDs == c.entities[id].textUnitIDs
      requires d == c.(entities := c.entities[id := e], entityVecs := d.entityVecs)
      ensures ReferencesOk(d)
    {
      hide LinksOk, MembersLive;
      MembersMore(c.communities, c.entities, c.relationships, d.entities, c.relationships);
      UpdateLinks(c.textUnits, c.entities, id, e);
    }

    static lemma UpdateLinks(textUnits: map<Id, TextUnit>, entities: map<Id, Entity>, id: Id, e: Entity)
      requires LinksOk(textUnits, entities) && id in entities && e.textUnitIDs == entities[id].textUnitIDs
      ensures LinksOk(textUnits, entities[id := e])
    {
    }

    // -------------------------------------------------------------- communities

    method AddCommunity(m: Community, vec: Vec) returns (r: Option<Id>)
      requires Valid()
      modifies this
      ensures Valid()
      ensures Does(old(Contents()), StoreContents.AddCommunity(cfg, old(Contents()), m, vec), Contents(), r.Some?)
      ensures r.Some? ==> r.value == old(counters).community + 1
    {
      hide WellFormed, UsageOf, DocumentsOk, TextUnitsOk, EntitiesOk, RelationshipsOk, CommunitiesOk, InUse;
      ghost var c := Contents();
      CommunityLookup(communities, m.extID);
      if m.extID != "" && m.extID in communities.byExtID {
        return None;
      }
      var liveEntities := AllInRows(m.entityIDs, entities.rows);
      if !liveEntities {
        return None;
      }
      var liveRelationships := AllInRows(m.relationshipIDs, relationships.rows);
      if !liveRelationships {
        return None;
      }
      var finite := ValidateOptionalEmbedding(cfg, vec);
      if !finite {
        return None;
      }
      var admitted := CheckAdmission(0, 0, 0, CommunityCost(m, vec));
      if !admitted {
        return None;
      }
      NextIdsAreFree(cfg, c);
      AddCommunityKeeps(cfg, c, m, vec);
      hide CommunityFits, EmbeddingOk, AllIn;
      var id := counters.community + 1;
      counters := counters.(community := id);
      var ok;
      communities, ok := InsertCommunity(communities, cfg.dim, id, m, vec);
      RecordAdmission(0, 0, 0, CommunityCost(m, vec));
      return Some(id);
    }

    method DeleteCommunityChecked(id: Id) returns (ok: bool)
      requires Valid()
      modifies this
      ensures Valid()
      ensures Does(old(Contents()), StoreContents.DeleteCommunity(old(Contents()), id), Contents(), ok)
    {
      hide WellFormed, UsageOf, DocumentsOk, TextUnitsOk, EntitiesOk, RelationshipsOk, CommunitiesOk, InUse;
      ghost var c := Contents();
      if id !in communities.rows {
        return false;
      }
      var m, vec := communities.rows[id], VecOf(communities.vecs, id);
      DeleteCommunityKeeps(cfg, c, id);
      DeleteCommunityUsage(c, id);
      communities := RemoveCommunity(communities, id);
      UsageNonNegative(Contents());
      Release(0, 0, 0, CommunityCost(m, vec), UsageOf(Contents()));
      return true;
    }

    /** The usage counters from the tables. */
    method RecalculateSessionUsage()
      modifies this`usage
      ensures usage == UsageOf(Contents())
    {
      hide DocumentMemory, TextUnitMemory, EntityMemory, RelationshipMemory, CommunityMemory;
      var d := DocumentsMemory();
      var u := TextUnitsMemory();
      var e := EntitiesMemory();
      var r := RelationshipsMemory();
      var m := CommunitiesMemory();
      usage := Usage(|entities.rows|, |relationships.rows|, |documents.rows|, d + u + e + r + m);
    }

    method DocumentsMemory() returns (memory: nat)
      ensures memory == DocumentMemory(documents.rows)
    {
      memory := SumCosts(documents.rows, (i: Id, x: Document) => DocumentCost(x), DocumentCosts(documents.rows));
    }

    method TextUnitsMemory() returns (memory: nat)
      ensures memory == TextUnitMemory(textUnits.rows, textUnits.vecs)
    {
      var vecs := textUnits.vecs;
      memory := SumCosts(textUnits.rows, (i: Id, x: TextUnit) => TextUnitCost(x, VecOf(vecs, i)),
                         TextUnitCosts(textUnits.rows, textUnits.vecs));
    }

    method EntitiesMemory() returns (memory: nat)
      ensures memory == EntityMemory(entities.rows, entities.vecs)
    {
      var vecs := entities.vecs;
      memory := SumCosts(entities.rows, (i: Id, x: Entity) => EntityCost(x, VecOf(vecs, i)),
                         EntityCosts(entities.rows, entities.vecs));
    }

    method RelationshipsMemory() returns (memory: nat)
      ensures memory == RelationshipMemory(relationships.rows)
    {
      memory := SumCosts(relationships.rows, (i: Id, x: Relationship) => RelationshipCost(x),
                         RelationshipCosts(relationships.rows));
    }

    method CommunitiesMemory() returns (memory: nat)
      ensures memory == CommunityMemory(communities.rows, communities.vecs)
    {
      var vecs := communities.vecs;
      memory := SumCosts(communities.rows, (i: Id, x: Community) => CommunityCost(x, VecOf(vecs, i)),
                         CommunityCosts(communities.rows, communities.vecs));
    }

    method ClearCommunities()
      requires Valid()
      modifies this
      ensures Valid() && Contents() == WithoutCommunities(old(Contents()))
    {
      hide WellFormed, UsageOf, DocumentsOk, TextUnitsOk, EntitiesOk, RelationshipsOk, CommunitiesOk;
      WithoutCommunitiesKeeps(cfg, Contents());
      EmptyCommunities();
      communities := CommunityTable(map[], map[], map[], map[], if communities.index.Some? then Some(map[]) else None);
      RecalculateSessionUsage();
    }

    static lemma EmptyCommunities()
      ensures CommunitiesOk(CommunityTable(map[], map[], map[], map[], Some(map[])))
      ensures CommunitiesOk(CommunityTable(map[], map[], map[], map[], None))
    {
    }

    /** The embeddings are one per community, or none at all. */
    static function Replacement(ids: seq<Id>, rows: seq<Community>, embeddings: seq<Vec>): seq<Item<Community>>
      requires |ids| == |rows| && (embeddings == [] || |embeddings| == |rows|)
    {
      seq(|rows|, (i: nat) requires i < |rows| => Item(ids[i], rows[i], if embeddings == [] then [] else embeddings[i]))
    }

    /** All communities are checked, then replaced at once; only growth is held against the quota. */
    method ReplaceCommunities(ids: seq<Id>, rows: seq<Community>, embeddings: seq<Vec>) returns (ok: bool)
      requires Valid() && |ids| == |rows|
      modifies this
      ensures Valid()
      ensures Does(old(Contents()),
                   if embeddings != [] && |embeddings| != |rows| then None
                   else StoreContents.ReplaceCommunities(cfg, old(Contents()), Replacement(ids, rows, embeddings)),
                   Contents(), ok)
    {
      hide WellFormed, UsageOf, DocumentsOk, TextUnitsOk, EntitiesOk, RelationshipsOk, CommunitiesOk, InUse, Separate, PutCommunities,
        CommunitiesCost, CommunityMemory, CommunityFits, AllFit, StoreContents.ReplaceCommunities;
      ghost var c := Contents();
      if |embeddings| > 0 && |rows| != |embeddings| {
        return false;
      }
      var items := Replacement(ids, rows, embeddings);
      ReplacementNeeds(cfg, c, items);
      var separate, newMemory := CheckReplacement(cfg, entities.rows, relationships.rows, items, c);
      if !separate {
        return false;
      }
      var oldMemory := CommunitiesMemory();
      ReplacementOutcome(cfg, c, items, newMemory, oldMemory);
      var delta := newMemory as int - oldMemory as int;
      if delta > 0 {
        var admitted := CheckAdmission(0, 0, 0, delta);
        if !admitted {
          return false;
        }
      }
      var counter;
      communities, counter := BuildCommunities(cfg, items, WithoutCommunities(c));
      counters := counters.(community := Max(counters.community, counter));
      PutCommunitiesCounters(WithoutCommunities(c), items);
      RecalculateSessionUsage();
      return true;
    }

    static lemma ReplacementNeeds(cfg: Config, c: Contents, items: seq<Item<Community>>)
      ensures StoreContents.ReplaceCommunities(cfg, c, items).Some? ==> Separate(items) && AllFit(cfg, c, items)
    {
      hide UsageOf, Separate, CommunityFits, PutCommunities, Admits;
    }

    /** A replacement whose items are in order is admitted by its growth alone. */
    static lemma ReplacementOutcome(cfg: Config, c: Contents, items: seq<Item<Community>>, newMemory: nat, oldMemory: nat)
      requires WellFormed(cfg, c) && Separate(items) && AllFit(cfg, c, items)
      requires newMemory == CommunitiesCost(items) && oldMemory == CommunityMemory(c.communities, c.communityVecs)
      ensures var next := PutCommunities(WithoutCommunities(c), items);
        && WellFormed(cfg, next)
        && StoreContents.ReplaceCommunities(cfg, c, items)
             == if Admits(cfg.quotas, UsageOf(c), 0, 0, 0, newMemory as int - oldMemory as int) then Some(next) else None
      ensures forall i :: 0 <= i < |items| ==> IndexTakes(cfg, items[i].vec)
      ensures forall i :: 0 <= i < |items| ==> CommunityFits(cfg, c, items[i].row, items[i].vec)
    {
      hide WellFormed, UsageOf, CommunitiesCost, CommunityMemory, Separate, PutCommunities, AllIn, IsFinite;
      ReplaceUsage(cfg, c, items, PutCommunities(WithoutCommunities(c), items), newMemory);
      ReplaceKeeps(cfg, c, items);
    }

    /** The vector indexes are dropped and made again from the embeddings. */
    method RebuildVectorIndices()
      requires Valid()
      modifies this`textUnits, this`entities, this`communities
      ensures Valid() && Contents() == old(Contents())
      ensures textUnits.index.Some? <==> |textUnits.vecs| > 0
      ensures entities.index.Some? <==> |entities.vecs| > 0
      ensures communities.index.Some? <==> |communities.vecs| > 0
    {
      hide WellFormed, UsageOf, DocumentsOk, RelationshipsOk, IsIndex, IsGrouping;
      RebuildFits(cfg, Contents());
      var t := RebuildVectors(textUnits.vecs, cfg.dim);
      var e := RebuildVectors(entities.vecs, cfg.dim);
      var m := RebuildVectors(communities.vecs, cfg.dim);
      textUnits := textUnits.(index := t);
      entities := entities.(index := e);
      communities := communities.(index := m);
    }

    static lemma RebuildFits(cfg: Config, c: Contents)
      requires WellFormed(cfg, c)
      ensures forall i: Id :: i in c.textUnitVecs ==> |c.textUnitVecs[i]| == cfg.dim
      ensures forall i: Id :: i in c.entityVecs ==> |c.entityVecs[i]| == cfg.dim
      ensures forall i: Id :: i in c.communityVecs ==> |c.communityVecs[i]| == cfg.dim
    {
    }

    // -------------------------------------------------------------- bulk: entities

    method PrepareEntitiesBatch(xs: seq<EntityInput>, now: int) returns (r: Option<seq<Item<Entity>>>)
      requires Valid()
      ensures match PrepareBatch(cfg, Contents(), EntityIns(xs), now)
              case None => r.None?
              case Some(ps) => r.Some? && ps == EntityLogs(r.value)
    {
      hide WellFormed, UsageOf, DocumentsOk, TextUnitsOk, EntitiesOk, RelationshipsOk, CommunitiesOk, InUse,
        Batchable, InputsOk, EntitiesFree, ApplyAll, TotalGrowth;
      ghost var c := Contents();
      EntityBatchReads(cfg, c, xs, now);
      var ok, items, memory := CheckEntities(cfg, entities, xs, counters.entity, now);
      if !ok {
        return None;
      }
      var admitted := CheckAdmission(|xs|, 0, 0, memory);
      return if admitted then Some(items) else None;
    }

    /** The batch of rows is what the inputs become, and its check is the one made of them. */
    static lemma EntityBatchReads(cfg: Config, c: Contents, xs: seq<EntityInput>, now: int)
      requires WellFormed(cfg, c)
      ensures var all := EntityItems(cfg, c.counters.entity, xs, now);
        && IdsBelow(c.entities, c.counters.entity)
        && ToLogs(cfg, c, EntityIns(xs), now) == EntityLogs(all)
        && (InputsOk(cfg, EntityIns(xs)) ==>
              AllTaken(cfg, all) && (EntitiesFree(c.entities, all, |all|) <==> Batchable(cfg, c, EntityLogs(all))))
        && (Batchable(cfg, c, EntityLogs(all)) ==> AllTaken(cfg, all))
    {
      hide WellFormed, EntitiesFree, Batchable, IdsBelow;
      EntitiesCounted(cfg, c);
      var all := EntityItems(cfg, c.counters.entity, xs, now);
      assert EntityLogs(all)[..|all|] == EntityLogs(all);
      if InputsOk(cfg, EntityIns(xs)) {
        EntitiesFreeIsBatchable(cfg, c, all, |all|);
      }
      if Batchable(cfg, c, EntityLogs(all)) {
        BatchTaken(cfg, c, all);
      }
    }

    static lemma EntitiesCounted(cfg: Config, c: Contents)
      requires WellFormed(cfg, c)
      ensures IdsBelow(c.entities, c.counters.entity)
    {
    }

    static lemma BatchTaken(cfg: Config, c: Contents, items: seq<Item<Entity>>)
      requires Batchable(cfg, c, EntityLogs(items))
      ensures AllTaken(cfg, items)
    {
    }

    /** All of the batch under consecutive ids, or nothing. */
    method MSetEntitiesAtomic(xs: seq<EntityInput>, now: int) returns (r: Option<seq<Id>>)
      requires Valid()
      modifies this
      ensures Valid()
      ensures Does(old(Contents()), MSet(cfg, old(Contents()), EntityIns(xs), now), Contents(), r.Some?)
      ensures r.Some? ==> |r.value| == |xs| && forall i :: 0 <= i < |xs| ==> r.value[i] == old(counters).entity + i + 1
    {
      hide WellFormed, UsageOf, DocumentsOk, TextUnitsOk, EntitiesOk, RelationshipsOk, CommunitiesOk, InUse,
        Batchable, InputsOk, EntitiesFree, ApplyAll, TotalGrowth;
      ghost var c := Contents();
      EntityBatchReads(cfg, c, xs, now);
      var ok, items, memory := CheckEntities(cfg, entities, xs, counters.entity, now);
      if !ok {
        return None;
      }
      var admitted := CheckAdmission(|xs|, 0, 0, memory);
      if !admitted {
        return None;
      }
      NoStrayEntityVecs(cfg, c);
      entities, ok := InsertEntities(cfg, entities, items, c);
      EntityBatchKeeps(cfg, c, items);
      LargestOfRun(items, counters.entity);
      var ids := NextEntityIDs(|xs|);
      RecordAdmission(|xs|, 0, 0, memory);
      return Some(ids);
    }

    method NextEntityIDs(n: nat) returns (ids: seq<Id>)
      modifies this`counters
      ensures counters == old(counters).(entity := old(counters).entity + n)
      ensures |ids| == n && forall i :: 0 <= i < n ==> ids[i] == old(counters).entity + i + 1
    {
      ids := [];
      for i := 0 to n
        modifies this`counters
        invariant |ids| == i && counters == old(counters).(entity := old(counters).entity + i)
        invariant forall j :: 0 <= j < i ==> ids[j] == old(counters).entity + j + 1
      {
        counters := counters.(entity := counters.entity + 1);
        ids := ids + [counters.entity];
      }
    }

    /** The rows of a batch with their ids and embeddings. */
    static function Joined(ids: seq<Id>, rows: seq<Entity>, embeddings: seq<Vec>): seq<Item<Entity>>
      requires |ids| == |rows| == |embeddings|
    {
      seq(|rows|, (i: nat) requires i < |rows| => Item(ids[i], rows[i], embeddings[i]))
    }

    /** A logged batch: all of it, or nothing; and nothing if there is not an embedding for each row. */
    method ApplyEntitiesBatch(ids: seq<Id>, rows: seq<Entity>, embeddings: seq<Vec>) returns (ok: bool)
      requires Valid() && |ids| == |rows|
      modifies this
      ensures Counted()
      ensures Valid() <==> ok ==> forall i :: 0 <= i < |rows| ==> rows[i].textUnitIDs == []
      ensures Does(old(Contents()),
                   if |rows| != |embeddings| then None
                   else ApplyAll(cfg, old(Contents()), EntityLogs(Joined(ids, rows, embeddings))),
                   Contents(), ok)
    {
      hide WellFormed, UsageOf, TablesOk, ApplyAll, Contents;
      if |rows| != |embeddings| {
        return false;
      }
      var items := Joined(ids, rows, embeddings);
      ok := ApplyEntityItems(items);
      assert forall i :: 0 <= i < |rows| ==> rows[i] == items[i].row;
    }

    method ApplyEntityItems(items: seq<Item<Entity>>) returns (ok: bool)
      requires Valid()
      modifies this
      ensures Counted()
      ensures Valid() <==> ok ==> forall i :: 0 <= i < |items| ==> items[i].row.textUnitIDs == []
      ensures Does(old(Contents()), ApplyAll(cfg, old(Contents()), EntityLogs(items)), Contents(), ok)
    {
      hide WellFormed, UsageOf, DocumentsOk, TextUnitsOk, EntitiesOk, RelationshipsOk, CommunitiesOk, InUse,
        Batchable, InputsOk, EntitiesFree, ApplyAll, TotalGrowth;
      ghost var c := Contents();
      EntityBatchApplies(cfg, c, items);
      ok := CheckEntityItems(entities, items);
      if !ok {
        return false;
      }
      NoStrayEntityVecs(cfg, c);
      entities, ok := InsertEntities(cfg, entities, items, c);
      if !ok {
        return false;
      }
      EntityBatchKeeps(cfg, c, items);
      var memory := CountEntities(items);
      RecordAdmission(|items|, 0, 0, memory);
    }

    /** Moves the id counter past the rows of a batch and adds up their estimates. */
    method CountEntities(items: seq<Item<Entity>>) returns (memory: nat)
      modifies this`counters
      ensures counters == old(counters).(entity := Max(old(counters).entity, LargestId(items)))
      ensures TotalGrowth(EntityLogs(items)) == Growth(|items|, 0, 0, memory)
    {
      memory := 0;
      NoGrowth(EntityLogs(items));
      assert items[..0] == [];
      for i := 0 to |items|
        modifies this`counters
        invariant counters == old(counters).(entity := Max(old(counters).entity, LargestId(items[..i])))
        invariant TotalGrowth(EntityLogs(items)[..i]) == Growth(i, 0, 0, memory)
      {
        assert items[..i + 1][..i] == items[..i];
        MoreGrowth(EntityLogs(items), i);
        counters := counters.(entity := Max(counters.entity, items[i].id));
        memory := memory + EntityCost(items[i].row, items[i].vec);
      }
      assert items[..|items|] == items && EntityLogs(items)[..|items|] == EntityLogs(items);
    }

    /** A logged batch applies exactly when it passes the check and the vector index takes its embeddings. */
    static lemma EntityBatchApplies(cfg: Config, c: Contents, items: seq<Item<Entity>>)
      ensures ApplyAll(cfg, c, EntityLogs(items)).Some? <==> EntitiesFree(c.entities, items, |items|) && AllTaken(cfg, items)
    {
      hide EntitiesFree, Batchable, ApplyAll;
      assert EntityLogs(items)[..|items|] == EntityLogs(items);
      BatchIsIteration(cfg, c, EntityLogs(items));
      if AllTaken(cfg, items) {
        EntitiesFreeIsBatchable(cfg, c, items, |items|);
      } else if Batchable(cfg, c, EntityLogs(items)) {
        BatchTaken(cfg, c, items);
      }
    }

    static lemma EntityBatchKeeps(cfg: Config, c: Contents, items: seq<Item<Entity>>)
      requires WellFormed(cfg, c) && ApplyAll(cfg, c, EntityLogs(items)).Some?
      ensures var d := ApplyAll(cfg, c, EntityLogs(items)).value;
        && (WellFormed(cfg, d) <==> forall i :: 0 <= i < |items| ==> items[i].row.textUnitIDs == [])
        && UsageOf(d) == StoreWrites.Grown(UsageOf(c), TotalGrowth(EntityLogs(items)))
        && d == c.(entities := d.entities, entityVecs := d.entityVecs,
                   counters := c.counters.(entity := Max(c.counters.entity, LargestId(items))))
    {
      hide WellFormed, UsageOf, ApplyAll, TotalGrowth;
      var ps := EntityLogs(items);
      assert AllUnlinked(ps) <==> forall i :: 0 <= i < |items| ==> items[i].row.textUnitIDs == [] by {
        assert forall i :: 0 <= i < |items| ==> (Unlinked(ps[i]) <==> items[i].row.textUnitIDs == []);
      }
      ApplyAllKeeps(cfg, c, ps);
      EntitiesElsewhere(cfg, c, items);
    }

    // -------------------------------------------------------------- bulk: relationships

    method PrepareRelationshipsBatch(xs: seq<RelationshipInput>, now: int) returns (r: Option<seq<Item<Relationship>>>)
      requires Valid()
      ensures match PrepareBatch(cfg, Contents(), RelationshipIns(xs), now)
              case None => r.None?
              case Some(ps) => r.Some? && ps == RelationshipLogs(r.value)
    {
      hide WellFormed, UsageOf, DocumentsOk, TextUnitsOk, EntitiesOk, RelationshipsOk, CommunitiesOk, InUse,
        Batchable, InputsOk, RelationshipsFree, ApplyAll, TotalGrowth;
      ghost var c := Contents();
      RelationshipBatchReads(cfg, c, xs, now);
      var ok, items, memory := CheckRelationships(relationships, entities.rows, xs, counters.relationship, now, c);
      if !ok {
        return None;
      }
      var admitted := CheckAdmission(0, |xs|, 0, memory);
      return if admitted then Some(items) else None;
    }

    /** The batch of rows is what the inputs become, and its check is the one made of them. */
    static lemma RelationshipBatchReads(cfg: Config, c: Contents, xs: seq<RelationshipInput>, now: int)
      requires WellFormed(cfg, c)
      ensures var all := RelationshipItems(c.counters.relationship, xs, now);
        && IdsBelow(c.relationships, c.counters.relationship)
        && ToLogs(cfg, c, RelationshipIns(xs), now) == RelationshipLogs(all)
        && InputsOk(cfg, RelationshipIns(xs))
        && (RelationshipsFree(c, all, |all|) <==> Batchable(cfg, c, RelationshipLogs(all)))
    {
      hide WellFormed, RelationshipsFree, Batchable, IdsBelow;
      RelationshipsCounted(cfg, c);
      var all := RelationshipItems(c.counters.relationship, xs, now);
      assert RelationshipLogs(all)[..|all|] == RelationshipLogs(all);
      RelationshipsFreeIsBatchable(cfg, c, all, |all|);
    }

    static lemma RelationshipsCounted(cfg: Config, c: Contents)
      requires WellFormed(cfg, c)
      ensures IdsBelow(c.relationships, c.counters.relationship)
    {
    }

    /** All of the batch under consecutive ids, or nothing. */
    method MSetRelationshipsAtomic(xs: seq<RelationshipInput>, now: int) returns (r: Option<seq<Id>>)
      requires Valid()
      modifies this
      ensures Valid()
      ensures Does(old(Contents()), MSet(cfg, old(Contents()), RelationshipIns(xs), now), Contents(), r.Some?)
      ensures r.Some? ==> |r.value| == |xs| && forall i :: 0 <= i < |xs| ==> r.value[i] == old(counters).relationship + i + 1
    {
      hide WellFormed, UsageOf, DocumentsOk, TextUnitsOk, EntitiesOk, RelationshipsOk, CommunitiesOk, InUse,
        Batchable, InputsOk, RelationshipsFree, ApplyAll, TotalGrowth;
      ghost var c := Contents();
      RelationshipBatchReads(cfg, c, xs, now);
      var ok, items, memory := CheckRelationships(relationships, entities.rows, xs, counters.relationship, now, c);
      if !ok {
        return None;
      }
      var admitted := CheckAdmission(0, |xs|, 0, memory);
      if !admitted {
        return None;
      }
      relationships := InsertRelationships(cfg, relationships, items, c);
      RelationshipBatchKeeps(cfg, c, items);
      LargestOfRun(items, counters.relationship);
      var ids := NextRelationshipIDs(|xs|);
      RecordAdmission(0, |xs|, 0, memory);
      return Some(ids);
    }

    method NextRelationshipIDs(n: nat) returns (ids: seq<Id>)
      modifies this`counters
      ensures counters == old(counters).(relationship := old(counters).relationship + n)
      ensures |ids| == n && forall i :: 0 <= i < n ==> ids[i] == old(counters).relationship + i + 1
    {
      ids := [];
      for i := 0 to n
        modifies this`counters
        invariant |ids| == i && counters == old(counters).(relationship := old(counters).relationship + i)
        invariant forall j :: 0 <= j < i ==> ids[j] == old(counters).relationship + j + 1
      {
        counters := counters.(relationship := counters.relationship + 1);
        ids := ids + [counters.relationship];
      }
    }

    /** A logged batch: all of it, or nothing. */
    method ApplyRelationshipsBatch(items: seq<Item<Relationship>>) returns (ok: bool)
      requires Valid()
      modifies this
      ensures Valid()
      ensures Does(old(Contents()), ApplyAll(cfg, old(Contents()), RelationshipLogs(items)), Contents(), ok)
    {
      hide WellFormed, UsageOf, DocumentsOk, TextUnitsOk, EntitiesOk, RelationshipsOk, CommunitiesOk, InUse,
        Batchable, InputsOk, RelationshipsFree, ApplyAll, TotalGrowth;
      ghost var c := Contents();
      RelationshipBatchApplies(cfg, c, items);
      ok := CheckRelationshipItems(relationships, entities.rows, items, c);
      if !ok {
        return false;
      }
      relationships := InsertRelationships(cfg, relationships, items, c);
      RelationshipBatchKeeps(cfg, c, items);
      var memory := CountRelationships(items);
      RecordAdmission(0, |items|, 0, memory);
    }

    method CountRelationships(items: seq<Item<Relationship>>) returns (memory: nat)
      modifies this`counters
      ensures counters == old(counters).(relationship := Max(old(counters).relationship, LargestId(items)))
      ensures TotalGrowth(RelationshipLogs(items)) == Growth(0, |items|, 0, memory)
    {
      memory := 0;
      NoGrowth(RelationshipLogs(items));
      for i := 0 to |items|
        modifies this`counters
        invariant counters == old(counters).(relationship := Max(old(counters).relationship, LargestId(items[..i])))
        invariant TotalGrowth(RelationshipLogs(items)[..i]) == Growth(0, i, 0, memory)
      {
        assert items[..i + 1][..i] == items[..i];
        MoreGrowth(RelationshipLogs(items), i);
        counters := counters.(relationship := Max(counters.relationship, items[i].id));
        memory := memory + RelationshipCost(items[i].row);
      }
      assert items[..|items|] == items && RelationshipLogs(items)[..|items|] == RelationshipLogs(items);
    }

    /** A logged batch applies exactly when it passes the check. */
    static lemma RelationshipBatchApplies(cfg: Config, c: Contents, items: seq<Item<Relationship>>)
      ensures ApplyAll(cfg, c, RelationshipLogs(items)).Some? <==> RelationshipsFree(c, items, |items|)
    {
      hide RelationshipsFree, Batchable, ApplyAll;
      assert RelationshipLogs(items)[..|items|] == RelationshipLogs(items);
      BatchIsIteration(cfg, c, RelationshipLogs(items));
      RelationshipsFreeIsBatchable(cfg, c, items, |items|);
    }

    static lemma RelationshipBatchKeeps(cfg: Config, c: Contents, items: seq<Item<Relationship>>)
      requires WellFormed(cfg, c) && ApplyAll(cfg, c, RelationshipLogs(items)).Some?
      ensures var d := ApplyAll(cfg, c, RelationshipLogs(items)).value;
        && WellFormed(cfg, d) && UsageOf(d) == StoreWrites.Grown(UsageOf(c), TotalGrowth(RelationshipLogs(items)))
        && d == c.(relationships := d.relationships,
                   counters := c.counters.(relationship := Max(c.counters.relationship, LargestId(items))))
    {
      hide WellFormed, UsageOf, ApplyAll, TotalGrowth;
      ApplyAllKeeps(cfg, c, RelationshipLogs(items));
      RelationshipsElsewhere(cfg, c, items);
    }

    static lemma NoStrayEntityVecs(cfg: Config, c: Contents)
      requires WellFormed(cfg, c)
      ensures forall i: Id :: i in c.entityVecs ==> i in c.entities
    {
    }

    static lemma {:induction false} LargestOfRun<V>(items: seq<Item<V>>, counter: nat)
      requires forall i :: 0 <= i < |items| ==> items[i].id == counter + i + 1
      ensures Max(counter, LargestId(items)) == counter + |items|
      decreases |items|
    {
      if items != [] {
        LargestOfRun(items[..|items| - 1], counter);
      }
    }

    // -------------------------------------------------------------- snapshots

    method Snapshot() returns (snap: SessionSnapshot)
      ensures IsSnapshotOf(snap, Contents())
    {
      hide Enumerates;
      var d := ListRows(documents.rows);
      var u := ListRows(textUnits.rows);
      var e := ListRows(entities.rows);
      var r := ListRows(relationships.rows);
      var m := ListRows(communities.rows);
      snap := SessionSnapshot(d, u, e, r, m, counters, textUnits.vecs, entities.vecs, communities.vecs);
    }

    /**
     Restoring the snapshot of a store gives back its contents, with every index and the usage
     right again, whatever this store held and in whatever order the lists are.
     */
    method RestoreFromSnapshot(snap: SessionSnapshot, ghost c: Contents) returns (ok: bool)
      modifies this
      ensures IsSnapshotOf(snap, c) && WellFormed(cfg, c) && AllNamed(c.entities) ==>
        ok && Valid() && Contents() == c
    {
      hide WellFormed, UsageOf, DocumentsOk, TextUnitsOk, EntitiesOk, RelationshipsOk, CommunitiesOk, Enumerates,
        KeysUnique;
      documents := RestoreDocuments(snap.documents, c.documents);
      textUnits := RestoreTextUnits(snap.textUnits, c.textUnits);
      entities := RestoreEntities(snap.entities, c.entities);
      relationships := RestoreRelationships(snap.relationships, c.relationships);
      communities := RestoreCommunities(snap.communities, c.communities);
      counters := snap.counters;
      if WellFormed(cfg, c) {
        RestoredKeys(cfg, c);
      }
      var t, tok := RestoreVectors(snap.textUnitVectors, cfg.dim);
      WithVectors(textUnits, entities, communities);
      textUnits := textUnits.(vecs := snap.textUnitVectors, index := t);
      if !tok {
        return false;
      }
      var e, eok := RestoreVectors(snap.entityVectors, cfg.dim);
      entities := entities.(vecs := snap.entityVectors, index := e);
      if !eok {
        return false;
      }
      var m, mok := RestoreVectors(snap.communityVectors, cfg.dim);
      communities := communities.(vecs := snap.communityVectors, index := m);
      if !mok {
        return false;
      }
      RecalculateSessionUsage();
      return true;
    }

    static lemma RestoredKeys(cfg: Config, c: Contents)
      requires WellFormed(cfg, c)
      ensures KeysUnique(c.documents, DocumentExt) && KeysUnique(c.textUnits, TextUnitExt)
      ensures KeysUnique(c.entities, EntityExt) && KeysUnique(c.entities, EntityTitle)
      ensures KeysUnique(c.relationships, RelationshipExt) && KeysUnique(c.relationships, RelationshipKey)
      ensures KeysUnique(c.communities, CommunityExt)
      ensures forall i: Id :: i in c.textUnitVecs ==> |c.textUnitVecs[i]| == cfg.dim
      ensures forall i: Id :: i in c.entityVecs ==> |c.entityVecs[i]| == cfg.dim
      ensures forall i: Id :: i in c.communityVecs ==> |c.communityVecs[i]| == cfg.dim
    {
      hide KeysUnique, ReferencesOk, CountersOk;
    }

    /** Tables stay right when embeddings and the index that holds them are put in together. */
    static lemma WithVectors(u: TextUnitTable, e: EntityTable, m: CommunityTable)
      ensures TextUnitsOk(u) ==> forall vecs, index :: VectorsOk(vecs, index) ==>
        TextUnitsOk(u.(vecs := vecs, index := index))
      ensures EntitiesOk(e) ==> forall vecs, index :: VectorsOk(vecs, index) ==>
        EntitiesOk(e.(vecs := vecs, index := index))
      ensures CommunitiesOk(m) ==> forall vecs, index :: VectorsOk(vecs, index) ==>
        CommunitiesOk(m.(vecs := vecs, index := index))
    {
      hide IsIndex, IsGrouping;
    }
  }
}
