/**
 Every operation keeps the contents well-formed, and the usage counters move by what the
 operation admits or releases.
 */
module StoreInvariant {

  import opened Collections
  import opened Tables
  import opened StoreContents

  // ---------------------------------------------------------------- usage

  lemma DocumentMemoryPut(rows: map<Id, Document>, id: Id, d: Document)
    requires id !in rows
    ensures DocumentMemory(rows[id := d]) == DocumentMemory(rows) + DocumentCost(d)
  {
    var costs := DocumentCosts(rows);
    assert DocumentCosts(rows[id := d]) == costs[id := DocumentCost(d)];
    TotalAdd(costs, id, DocumentCost(d));
  }

  lemma DocumentMemoryDrop(rows: map<Id, Document>, id: Id)
    requires id in rows
    ensures DocumentMemory(rows) == DocumentMemory(rows - {id}) + DocumentCost(rows[id])
  {
    var costs := DocumentCosts(rows);
    assert DocumentCosts(rows - {id}) == costs - {id};
    TotalDrop(costs, id);
  }

  lemma PutDocumentUsage(c: Contents, id: Id, d: Document)
    requires id !in c.documents
    ensures UsageOf(PutDocument(c, id, d)) == Plus(UsageOf(c), 0, 0, 1, DocumentCost(d))
  {
    hide DocumentMemory, TextUnitMemory, EntityMemory, RelationshipMemory, CommunityMemory;
    DocumentMemoryPut(c.documents, id, d);
  }

  lemma DeleteDocumentUsage(c: Contents, id: Id)
    requires DeleteDocument(c, id).Some?
    ensures UsageOf(c) == Plus(UsageOf(DeleteDocument(c, id).value), 0, 0, 1,
                               DocumentCost(c.documents[id]))
  {
    hide DocumentMemory, TextUnitMemory, EntityMemory, RelationshipMemory, CommunityMemory;
    DocumentMemoryDrop(c.documents, id);
  }

  lemma TextUnitMemoryPut(rows: map<Id, TextUnit>, vecs: map<Id, Vec>, id: Id, u: TextUnit, vec: Vec)
    requires id !in rows && id !in vecs
    ensures TextUnitMemory(rows[id := u], Remember(vecs, id, vec)) == TextUnitMemory(rows, vecs) + TextUnitCost(u, vec)
  {
    TextUnitCostsPut(rows, vecs, id, u, vec);
    TotalAdd(TextUnitCosts(rows, vecs), id, TextUnitCost(u, vec));
  }

  lemma TextUnitCostsPut(rows: map<Id, TextUnit>, vecs: map<Id, Vec>, id: Id, u: TextUnit, vec: Vec)
    requires id !in rows && id !in vecs
    ensures TextUnitCosts(rows[id := u], Remember(vecs, id, vec)) == TextUnitCosts(rows, vecs)[id := TextUnitCost(u, vec)]
  {
  }

  lemma TextUnitMemoryDrop(rows: map<Id, TextUnit>, vecs: map<Id, Vec>, id: Id)
    requires id in rows
    ensures TextUnitMemory(rows, vecs) == TextUnitMemory(rows - {id}, vecs - {id}) + TextUnitCost(rows[id], VecOf(vecs, id))
  {
    var costs := TextUnitCosts(rows, vecs);
    assert TextUnitCosts(rows - {id}, vecs - {id}) == costs - {id};
    TotalDrop(costs, id);
  }

  lemma PutTextUnitUsage(c: Contents, id: Id, u: TextUnit, vec: Vec)
    requires id !in c.textUnits && id !in c.textUnitVecs
    ensures UsageOf(PutTextUnit(c, id, u, vec)) == Plus(UsageOf(c), 0, 0, 0, TextUnitCost(u, vec))
  {
    hide DocumentMemory, TextUnitMemory, EntityMemory, RelationshipMemory, CommunityMemory;
    TextUnitMemoryPut(c.textUnits, c.textUnitVecs, id, u, vec);
  }

  lemma DeleteTextUnitUsage(c: Contents, id: Id)
    requires DeleteTextUnit(c, id).Some?
    ensures UsageOf(c) == Plus(UsageOf(DeleteTextUnit(c, id).value), 0, 0, 0,
                               TextUnitCost(c.textUnits[id], VecOf(c.textUnitVecs, id)))
  {
    hide DocumentMemory, TextUnitMemory, EntityMemory, RelationshipMemory, CommunityMemory;
    TextUnitMemoryDrop(c.textUnits, c.textUnitVecs, id);
  }

  lemma EntityMemoryPut(rows: map<Id, Entity>, vecs: map<Id, Vec>, id: Id, e: Entity, vec: Vec)
    requires id !in rows && id !in vecs
    ensures EntityMemory(rows[id := e], Remember(vecs, id, vec)) == EntityMemory(rows, vecs) + EntityCost(e, vec)
  {
    EntityCostsPut(rows, vecs, id, e, vec);
    TotalAdd(EntityCosts(rows, vecs), id, EntityCost(e, vec));
  }

  lemma EntityCostsPut(rows: map<Id, Entity>, vecs: map<Id, Vec>, id: Id, e: Entity, vec: Vec)
    requires id !in rows && id !in vecs
    ensures EntityCosts(rows[id := e], Remember(vecs, id, vec)) == EntityCosts(rows, vecs)[id := EntityCost(e, vec)]
  {
  }

  lemma EntityMemoryDrop(rows: map<Id, Entity>, vecs: map<Id, Vec>, id: Id)
    requires id in rows
    ensures EntityMemory(rows, vecs) == EntityMemory(rows - {id}, vecs - {id}) + EntityCost(rows[id], VecOf(vecs, id))
  {
    var costs := EntityCosts(rows, vecs);
    assert EntityCosts(rows - {id}, vecs - {id}) == costs - {id};
    TotalDrop(costs, id);
  }

  lemma PutEntityUsage(c: Contents, id: Id, e: Entity, vec: Vec)
    requires id !in c.entities && id !in c.entityVecs
    ensures UsageOf(PutEntity(c, id, e, vec)) == Plus(UsageOf(c), 1, 0, 0, EntityCost(e, vec))
  {
    hide DocumentMemory, TextUnitMemory, EntityMemory, RelationshipMemory, CommunityMemory;
    EntityMemoryPut(c.entities, c.entityVecs, id, e, vec);
  }

  lemma DeleteEntityUsage(c: Contents, id: Id)
    requires DeleteEntity(c, id).Some?
    ensures UsageOf(c) == Plus(UsageOf(DeleteEntity(c, id).value), 1, 0, 0,
                               EntityCost(c.entities[id], VecOf(c.entityVecs, id)))
  {
    hide DocumentMemory, TextUnitMemory, EntityMemory, RelationshipMemory, CommunityMemory;
    EntityMemoryDrop(c.entities, c.entityVecs, id);
    RowsDrop(c.entities, id);
  }

  lemma RelationshipMemoryPut(rows: map<Id, Relationship>, id: Id, r: Relationship)
    requires id !in rows
    ensures RelationshipMemory(rows[id := r]) == RelationshipMemory(rows) + RelationshipCost(r)
  {
    var costs := RelationshipCosts(rows);
    assert RelationshipCosts(rows[id := r]) == costs[id := RelationshipCost(r)];
    TotalAdd(costs, id, RelationshipCost(r));
  }

  lemma RelationshipMemoryDrop(rows: map<Id, Relationship>, id: Id)
    requires id in rows
    ensures RelationshipMemory(rows) == RelationshipMemory(rows - {id}) + RelationshipCost(rows[id])
  {
    var costs := RelationshipCosts(rows);
    assert RelationshipCosts(rows - {id}) == costs - {id};
    TotalDrop(costs, id);
  }

  lemma PutRelationshipUsage(c: Contents, id: Id, r: Relationship)
    requires id !in c.relationships
    ensures UsageOf(PutRelationship(c, id, r)) == Plus(UsageOf(c), 0, 1, 0, RelationshipCost(r))
  {
    hide DocumentMemory, TextUnitMemory, EntityMemory, RelationshipMemory, CommunityMemory;
    RelationshipMemoryPut(c.relationships, id, r);
  }

  lemma DeleteRelationshipUsage(c: Contents, id: Id)
    requires DeleteRelationship(c, id).Some?
    ensures UsageOf(c) == Plus(UsageOf(DeleteRelationship(c, id).value), 0, 1, 0,
                               RelationshipCost(c.relationships[id]))
  {
    hide DocumentMemory, TextUnitMemory, EntityMemory, RelationshipMemory, CommunityMemory;
    RelationshipMemoryDrop(c.relationships, id);
  }

  lemma CommunityMemoryPut(rows: map<Id, Community>, vecs: map<Id, Vec>, id: Id, m: Community, vec: Vec)
    requires id !in rows && id !in vecs
    ensures CommunityMemory(rows[id := m], Remember(vecs, id, vec)) == CommunityMemory(rows, vecs) + CommunityCost(m, vec)
  {
    CommunityCostsPut(rows, vecs, id, m, vec);
    TotalAdd(CommunityCosts(rows, vecs), id, CommunityCost(m, vec));
  }

  lemma CommunityCostsPut(rows: map<Id, Community>, vecs: map<Id, Vec>, id: Id, m: Community, vec: Vec)
    requires id !in rows && id !in vecs
    ensures CommunityCosts(rows[id := m], Remember(vecs, id, vec)) == CommunityCosts(rows, vecs)[id := CommunityCost(m, vec)]
  {
  }

  lemma CommunityMemoryDrop(rows: map<Id, Community>, vecs: map<Id, Vec>, id: Id)
    requires id in rows
    ensures CommunityMemory(rows, vecs) == CommunityMemory(rows - {id}, vecs - {id}) + CommunityCost(rows[id], VecOf(vecs, id))
  {
    var costs := CommunityCosts(rows, vecs);
    assert CommunityCosts(rows - {id}, vecs - {id}) == costs - {id};
    TotalDrop(costs, id);
  }

  lemma PutCommunityUsage(c: Contents, id: Id, m: Community, vec: Vec)
    requires id !in c.communities && id !in c.communityVecs
    ensures UsageOf(PutCommunity(c, id, m, vec)) == Plus(UsageOf(c), 0, 0, 0, CommunityCost(m, vec))
  {
    hide DocumentMemory, TextUnitMemory, EntityMemory, RelationshipMemory, CommunityMemory;
    CommunityMemoryPut(c.communities, c.communityVecs, id, m, vec);
  }

  lemma DeleteCommunityUsage(c: Contents, id: Id)
    requires DeleteCommunity(c, id).Some?
    ensures UsageOf(c) == Plus(UsageOf(DeleteCommunity(c, id).value), 0, 0, 0,
                               CommunityCost(c.communities[id], VecOf(c.communityVecs, id)))
  {
    hide DocumentMemory, TextUnitMemory, EntityMemory, RelationshipMemory, CommunityMemory;
    CommunityMemoryDrop(c.communities, c.communityVecs, id);
  }

  lemma TextUnitMemoryLink(rows: map<Id, TextUnit>, vecs: map<Id, Vec>, id: Id, u: TextUnit)
    requires id in rows && u.extID == rows[id].extID && u.content == rows[id].content
    ensures TextUnitMemory(rows[id := u], vecs) == TextUnitMemory(rows, vecs)
  {
    assert TextUnitCosts(rows[id := u], vecs) == TextUnitCosts(rows, vecs);
  }

  lemma EntityMemoryLink(rows: map<Id, Entity>, vecs: map<Id, Vec>, id: Id, e: Entity)
    requires id in rows && e == rows[id].(textUnitIDs := e.textUnitIDs)
    ensures EntityMemory(rows[id := e], vecs) == EntityMemory(rows, vecs)
  {
    assert EntityCosts(rows[id := e], vecs) == EntityCosts(rows, vecs);
  }

  /** Linking changes no estimate. */
  lemma LinkUsage(c: Contents, ui: Id, ei: Id)
    requires Link(c, ui, ei).Some?
    ensures UsageOf(Link(c, ui, ei).value) == UsageOf(c)
  {
    hide DocumentMemory, TextUnitMemory, EntityMemory, RelationshipMemory, CommunityMemory;
    var d := Link(c, ui, ei).value;
    TextUnitMemoryLink(c.textUnits, c.textUnitVecs, ui, d.textUnits[ui]);
    EntityMemoryLink(c.entities, c.entityVecs, ei, d.entities[ei]);
  }

  // ---------------------------------------------------------------- references

  lemma MembersMore(communities: map<Id, Community>, entities: map<Id, Entity>, relationships: map<Id, Relationship>,
                    moreEntities: map<Id, Entity>, moreRelationships: map<Id, Relationship>)
    requires MembersLive(communities, entities, relationships)
    requires entities.Keys <= moreEntities.Keys && relationships.Keys <= moreRelationships.Keys
    ensures MembersLive(communities, moreEntities, moreRelationships)
  {
  }

  // ---------------------------------------------------------------- adding rows keeps the contents well-formed

  /** A fresh document with a free external id. */
  lemma PutDocumentKeeps(cfg: Config, c: Contents, id: Id, d: Document)
    requires WellFormed(cfg, c) && id != 0 && id !in c.documents && !InUse(c.documents, DocumentExt, d.extID)
    ensures WellFormed(cfg, PutDocument(c, id, d))
  {
  }

  /** A fresh, unlinked text unit of a live document. */
  lemma PutTextUnitKeeps(cfg: Config, c: Contents, id: Id, u: TextUnit, vec: Vec)
    requires WellFormed(cfg, c) && id != 0 && id !in c.textUnits && !InUse(c.textUnits, TextUnitExt, u.extID)
    requires u.documentID in c.documents && u.entityIDs == [] && IndexTakes(cfg, vec)
    ensures WellFormed(cfg, PutTextUnit(c, id, u, vec))
  {
    hide KeysOk, ReferencesOk, CountersOk, VecsOk, InUse;
    PutTextUnitKeys(c, id, u, vec);
    PutTextUnitReferences(c, id, u, vec);
    PutTextUnitRest(cfg, c, id, u, vec);
  }

  lemma PutTextUnitKeys(c: Contents, id: Id, u: TextUnit, vec: Vec)
    requires KeysOk(c) && id !in c.textUnits && !InUse(c.textUnits, TextUnitExt, u.extID)
    ensures KeysOk(PutTextUnit(c, id, u, vec))
  {
  }

  lemma PutTextUnitReferences(c: Contents, id: Id, u: TextUnit, vec: Vec)
    requires ReferencesOk(c) && id !in c.textUnits && u.documentID in c.documents && u.entityIDs == []
    ensures ReferencesOk(PutTextUnit(c, id, u, vec))
  {
  }

  lemma PutTextUnitRest(cfg: Config, c: Contents, id: Id, u: TextUnit, vec: Vec)
    requires CountersOk(c) && VecsOk(c, cfg.dim) && id != 0 && IndexTakes(cfg, vec)
    ensures CountersOk(PutTextUnit(c, id, u, vec)) && VecsOk(PutTextUnit(c, id, u, vec), cfg.dim)
  {
  }

  /** A fresh, unlinked entity with a free external id and title. */
  lemma PutEntityKeeps(cfg: Config, c: Contents, id: Id, e: Entity, vec: Vec)
    requires WellFormed(cfg, c) && id != 0 && id !in c.entities && !InUse(c.entities, EntityExt, e.extID)
    requires !InUse(c.entities, EntityTitle, e.title) && e.textUnitIDs == [] && IndexTakes(cfg, vec)
    ensures WellFormed(cfg, PutEntity(c, id, e, vec))
  {
    hide KeysOk, ReferencesOk, InUse;
    PutEntityKeys(c, id, e, vec);
    PutEntityReferences(c, id, e, vec);
  }

  lemma PutEntityKeys(c: Contents, id: Id, e: Entity, vec: Vec)
    requires KeysOk(c) && id !in c.entities && !InUse(c.entities, EntityExt, e.extID)
    requires !InUse(c.entities, EntityTitle, e.title)
    ensures KeysOk(PutEntity(c, id, e, vec))
  {
  }

  lemma PutEntityReferences(c: Contents, id: Id, e: Entity, vec: Vec)
    requires ReferencesOk(c) && id !in c.entities && e.textUnitIDs == []
    ensures ReferencesOk(PutEntity(c, id, e, vec))
  {
  }

  /** A fresh relationship between live entities with a free key. */
  lemma PutRelationshipKeeps(cfg: Config, c: Contents, id: Id, r: Relationship)
    requires WellFormed(cfg, c) && id != 0 && id !in c.relationships
    requires r.sourceID in c.entities && r.targetID in c.entities
    requires !InUse(c.relationships, RelationshipKey, RelationshipKey(r).value)
    requires r.extID != "" ==> !InUse(c.relationships, RelationshipExt, r.extID)
    ensures WellFormed(cfg, PutRelationship(c, id, r))
  {
    hide KeysOk, ReferencesOk, InUse;
    PutRelationshipKeys(c, id, r);
    PutRelationshipReferences(c, id, r);
  }

  lemma PutRelationshipKeys(c: Contents, id: Id, r: Relationship)
    requires KeysOk(c) && id !in c.relationships
    requires !InUse(c.relationships, RelationshipKey, RelationshipKey(r).value)
    requires r.extID != "" ==> !InUse(c.relationships, RelationshipExt, r.extID)
    ensures KeysOk(PutRelationship(c, id, r))
  {
  }

  lemma PutRelationshipReferences(c: Contents, id: Id, r: Relationship)
    requires ReferencesOk(c) && r.sourceID in c.entities && r.targetID in c.entities
    ensures ReferencesOk(PutRelationship(c, id, r))
  {
  }

  /** A fresh community of live members. */
  lemma PutCommunityKeeps(cfg: Config, c: Contents, id: Id, m: Community, vec: Vec)
    requires WellFormed(cfg, c) && id != 0 && id !in c.communities
    requires m.extID != "" ==> !InUse(c.communities, CommunityExt, m.extID)
    requires AllIn(m.entityIDs, c.entities) && AllIn(m.relationshipIDs, c.relationships) && IndexTakes(cfg, vec)
    ensures WellFormed(cfg, PutCommunity(c, id, m, vec))
  {
  }

  // ---------------------------------------------------------------- deleting rows keeps the contents well-formed

  lemma DeleteDocumentKeeps(cfg: Config, c: Contents, id: Id)
    requires WellFormed(cfg, c) && DeleteDocument(c, id).Some?
    ensures WellFormed(cfg, DeleteDocument(c, id).value)
  {
  }

  lemma DeleteTextUnitKeeps(cfg: Config, c: Contents, id: Id)
    requires WellFormed(cfg, c) && DeleteTextUnit(c, id).Some?
    ensures WellFormed(cfg, DeleteTextUnit(c, id).value)
  {
    hide ReferencesOk;
    DeleteTextUnitReferences(c, id);
  }

  lemma DeleteTextUnitReferences(c: Contents, id: Id)
    requires ReferencesOk(c) && DeleteTextUnit(c, id).Some?
    ensures ReferencesOk(DeleteTextUnit(c, id).value)
  {
  }

  lemma DeleteEntityKeeps(cfg: Config, c: Contents, id: Id)
    requires WellFormed(cfg, c) && DeleteEntity(c, id).Some?
    ensures WellFormed(cfg, DeleteEntity(c, id).value)
  {
    DeleteEntityReferences(c, id);
  }

  lemma DeleteEntityReferences(c: Contents, id: Id)
    requires ReferencesOk(c) && DeleteEntity(c, id).Some?
    ensures ReferencesOk(c.(entities := c.entities - {id}, entityVecs := c.entityVecs - {id}))
  {
  }

  lemma DeleteRelationshipKeeps(cfg: Config, c: Contents, id: Id)
    requires WellFormed(cfg, c) && DeleteRelationship(c, id).Some?
    ensures WellFormed(cfg, DeleteRelationship(c, id).value)
  {
  }

  lemma DeleteCommunityKeeps(cfg: Config, c: Contents, id: Id)
    requires WellFormed(cfg, c) && DeleteCommunity(c, id).Some?
    ensures WellFormed(cfg, DeleteCommunity(c, id).value)
  {
  }

  lemma WithoutCommunitiesKeeps(cfg: Config, c: Contents)
    requires WellFormed(cfg, c)
    ensures WellFormed(cfg, WithoutCommunities(c))
  {
  }

  // ---------------------------------------------------------------- links

  lemma LinkKeeps(cfg: Config, c: Contents, ui: Id, ei: Id)
    requires WellFormed(cfg, c) && Link(c, ui, ei).Some?
    ensures WellFormed(cfg, Link(c, ui, ei).value)
  {
    hide KeysOk, ReferencesOk;
    LinkKeys(c, ui, ei);
    LinkReferences(c, ui, ei);
  }

  lemma LinkKeys(c: Contents, ui: Id, ei: Id)
    requires KeysOk(c) && Link(c, ui, ei).Some?
    ensures KeysOk(Link(c, ui, ei).value)
  {
  }

  lemma LinkReferences(c: Contents, ui: Id, ei: Id)
    requires ReferencesOk(c) && Link(c, ui, ei).Some?
    ensures ReferencesOk(Link(c, ui, ei).value)
  {
  }
}
