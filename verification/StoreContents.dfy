/**
 What a session store holds, without its indexes: the rows of its five tables, the canonical
 embeddings and the id counters. The operations are given here by what they do to that.
 */
module StoreContents {

  import opened Collections
  import opened Tables
  import opened Wrappers

  const ONE: Float32 := 0x3F80_0000
  const MINUS_ZERO: Float32 := 0x8000_0000

  /** Neither an infinity nor a NaN: the exponent is not all ones. */
  predicate IsFinite(x: Float32) {
    x / 0x80_0000 % 0x100 != 0xFF
  }

  predicate IsZero(x: Float32) {
    x == 0 || x == MINUS_ZERO
  }

  datatype Level = Level(n: int)

  datatype Document = Document(extID: string, filename: string, createdAt: int)

  datatype TextUnit = TextUnit(extID: string, documentID: Id, content: string, entityIDs: seq<Id>,
                               tokenCount: int, createdAt: int)

  datatype Entity = Entity(extID: string, title: string, kind: string, description: string,
                           textUnitIDs: seq<Id>, createdAt: int)

  datatype Relationship = Relationship(extID: string, sourceID: Id, targetID: Id, kind: string,
                                       description: string, weight: Float32, createdAt: int)

  datatype Community = Community(extID: string, title: string, level: Level, entityIDs: seq<Id>,
                                 relationshipIDs: seq<Id>, summary: string, fullContent: string, createdAt: int)

  datatype Counters = Counters(document: nat, textUnit: nat, entity: nat, relationship: nat, community: nat)

  datatype Contents = Contents(
    documents: map<Id, Document>,
    textUnits: map<Id, TextUnit>,
    entities: map<Id, Entity>,
    relationships: map<Id, Relationship>,
    communities: map<Id, Community>,
    textUnitVecs: map<Id, Vec>,
    entityVecs: map<Id, Vec>,
    communityVecs: map<Id, Vec>,
    counters: Counters)

  function Empty(): Contents {
    Contents(map[], map[], map[], map[], map[], map[], map[], map[], Counters(0, 0, 0, 0, 0))
  }

  /** Zero or less means unlimited. */
  datatype Quotas = Quotas(maxEntities: int, maxRelationships: int, maxDocuments: int, maxMemoryBytes: int)

  /** `blank` tells an external id that is empty once trimmed; `normal` trims and upper-cases a title. */
  datatype Config = Config(blank: string -> bool, normal: string -> string, dim: nat, quotas: Quotas)

  // ---------------------------------------------------------------- keys

  datatype RelKey = RelKey(sourceID: Id, targetID: Id, kind: string)

  function DocumentExt(d: Document): Option<string> { Some(d.extID) }
  function DocumentFile(d: Document): Option<string> { if d.filename == "" then None else Some(d.filename) }
  function TextUnitExt(u: TextUnit): Option<string> { Some(u.extID) }
  function TextUnitParent(u: TextUnit): Option<Id> { Some(u.documentID) }
  function EntityExt(e: Entity): Option<string> { Some(e.extID) }
  function EntityTitle(e: Entity): Option<string> { Some(e.title) }
  function RelationshipExt(r: Relationship): Option<string> { if r.extID == "" then None else Some(r.extID) }
  function RelationshipKey(r: Relationship): Option<RelKey> { Some(RelKey(r.sourceID, r.targetID, r.kind)) }
  function RelationshipSource(r: Relationship): Option<Id> { Some(r.sourceID) }
  function RelationshipTarget(r: Relationship): Option<Id> { Some(r.targetID) }
  function CommunityExt(c: Community): Option<string> { if c.extID == "" then None else Some(c.extID) }
  function CommunityLevel(c: Community): Option<Level> { Some(c.level) }

  // ---------------------------------------------------------------- memory and usage

  function VecOf(vecs: map<Id, Vec>, id: Id): Vec {
    if id in vecs then vecs[id] else []
  }

  function DocumentCost(d: Document): nat {
    128 + |d.extID| + |d.filename|
  }

  function TextUnitCost(u: TextUnit, vec: Vec): nat {
    160 + |u.extID| + |u.content| + 4 * |vec|
  }

  function EntityCost(e: Entity, vec: Vec): nat {
    192 + |e.extID| + |e.title| + |e.kind| + |e.description| + 4 * |vec|
  }

  function RelationshipCost(r: Relationship): nat {
    160 + |r.extID| + |r.kind| + |r.description|
  }

  function CommunityCost(c: Community, vec: Vec): nat {
    192 + |c.extID| + |c.title| + |c.summary| + |c.fullContent| + 8 * (|c.entityIDs| + |c.relationshipIDs|) + 4 * |vec|
  }

  ghost function DocumentCosts(rows: map<Id, Document>): map<Id, nat> {
    map i: Id | i in rows :: DocumentCost(rows[i])
  }

  ghost function TextUnitCosts(rows: map<Id, TextUnit>, vecs: map<Id, Vec>): map<Id, nat> {
    map i: Id | i in rows :: TextUnitCost(rows[i], VecOf(vecs, i))
  }

  ghost function EntityCosts(rows: map<Id, Entity>, vecs: map<Id, Vec>): map<Id, nat> {
    map i: Id | i in rows :: EntityCost(rows[i], VecOf(vecs, i))
  }

  ghost function RelationshipCosts(rows: map<Id, Relationship>): map<Id, nat> {
    map i: Id | i in rows :: RelationshipCost(rows[i])
  }

  ghost function CommunityCosts(rows: map<Id, Community>, vecs: map<Id, Vec>): map<Id, nat> {
    map i: Id | i in rows :: CommunityCost(rows[i], VecOf(vecs, i))
  }

  ghost function DocumentMemory(rows: map<Id, Document>): nat {
    Total(DocumentCosts(rows))
  }

  ghost function TextUnitMemory(rows: map<Id, TextUnit>, vecs: map<Id, Vec>): nat {
    Total(TextUnitCosts(rows, vecs))
  }

  ghost function EntityMemory(rows: map<Id, Entity>, vecs: map<Id, Vec>): nat {
    Total(EntityCosts(rows, vecs))
  }

  ghost function RelationshipMemory(rows: map<Id, Relationship>): nat {
    Total(RelationshipCosts(rows))
  }

  ghost function CommunityMemory(rows: map<Id, Community>, vecs: map<Id, Vec>): nat {
    Total(CommunityCosts(rows, vecs))
  }

  datatype Usage = Usage(entities: int, relationships: int, documents: int, memory: int)

  /** What the usage counters should say. */
  ghost function UsageOf(c: Contents): Usage {
    Usage(|c.entities|, |c.relationships|, |c.documents|,
          DocumentMemory(c.documents)
          + TextUnitMemory(c.textUnits, c.textUnitVecs)
          + EntityMemory(c.entities, c.entityVecs)
          + RelationshipMemory(c.relationships)
          + CommunityMemory(c.communities, c.communityVecs))
  }

  function Plus(u: Usage, entities: int, relationships: int, documents: int, memory: int): Usage {
    Usage(u.entities + entities, u.relationships + relationships, u.documents + documents, u.memory + memory)
  }

  /** Growth is checked against the positive quotas. */
  predicate Admits(q: Quotas, u: Usage, entities: int, relationships: int, documents: int, memory: int) {
    && (documents > 0 && q.maxDocuments > 0 ==> u.documents + documents <= q.maxDocuments)
    && (entities > 0 && q.maxEntities > 0 ==> u.entities + entities <= q.maxEntities)
    && (relationships > 0 && q.maxRelationships > 0 ==> u.relationships + relationships <= q.maxRelationships)
    && (memory > 0 && q.maxMemoryBytes > 0 ==> u.memory + memory <= q.maxMemoryBytes)
  }

  ghost predicate WithinQuotas(q: Quotas, u: Usage) {
    && (q.maxDocuments > 0 ==> u.documents <= q.maxDocuments)
    && (q.maxEntities > 0 ==> u.entities <= q.maxEntities)
    && (q.maxRelationships > 0 ==> u.relationships <= q.maxRelationships)
    && (q.maxMemoryBytes > 0 ==> u.memory <= q.maxMemoryBytes)
  }

  // ---------------------------------------------------------------- well-formedness

  ghost predicate IdsBelow<V>(rows: map<Id, V>, counter: nat) {
    forall i: Id :: i in rows ==> 0 < i <= counter
  }

  /** Ids in use are positive and no counter is behind them. */
  ghost predicate CountersOk(c: Contents) {
    && IdsBelow(c.documents, c.counters.document)
    && IdsBelow(c.textUnits, c.counters.textUnit)
    && IdsBelow(c.entities, c.counters.entity)
    && IdsBelow(c.relationships, c.counters.relationship)
    && IdsBelow(c.communities, c.counters.community)
  }

  ghost predicate KeysOk(c: Contents) {
    && KeysUnique(c.documents, DocumentExt)
    && KeysUnique(c.textUnits, TextUnitExt)
    && KeysUnique(c.entities, EntityExt)
    && KeysUnique(c.entities, EntityTitle)
    && KeysUnique(c.relationships, RelationshipExt)
    && KeysUnique(c.relationships, RelationshipKey)
    && KeysUnique(c.communities, CommunityExt)
  }

  ghost predicate ParentsLive(textUnits: map<Id, TextUnit>, documents: map<Id, Document>) {
    forall u: Id :: u in textUnits ==> textUnits[u].documentID in documents
  }

  ghost predicate EndpointsLive(relationships: map<Id, Relationship>, entities: map<Id, Entity>) {
    forall r: Id :: r in relationships ==>
      relationships[r].sourceID in entities && relationships[r].targetID in entities
  }

  ghost predicate AllIn<V>(ids: seq<Id>, rows: map<Id, V>) {
    forall i: Id :: i in ids ==> i in rows
  }

  ghost predicate MembersLive(communities: map<Id, Community>, entities: map<Id, Entity>,
                              relationships: map<Id, Relationship>) {
    forall m: Id :: m in communities ==>
      AllIn(communities[m].entityIDs, entities) && AllIn(communities[m].relationshipIDs, relationships)
  }

  /** A text unit lists an entity exactly when the entity lists the text unit, once each. */
  ghost predicate LinksOk(textUnits: map<Id, TextUnit>, entities: map<Id, Entity>) {
    && (forall u: Id :: u in textUnits ==> Distinct(textUnits[u].entityIDs) && AllIn(textUnits[u].entityIDs, entities))
    && (forall e: Id :: e in entities ==> Distinct(entities[e].textUnitIDs) && AllIn(entities[e].textUnitIDs, textUnits))
    && (forall u: Id, e: Id :: u in textUnits && e in entities ==>
          (e in textUnits[u].entityIDs <==> u in entities[e].textUnitIDs))
  }

  ghost predicate VecsFit<V>(rows: map<Id, V>, vecs: map<Id, Vec>, dim: nat) {
    forall i: Id :: i in vecs ==> i in rows && vecs[i] != [] && |vecs[i]| == dim
  }

  ghost predicate VecsOk(c: Contents, dim: nat) {
    && VecsFit(c.textUnits, c.textUnitVecs, dim)
    && VecsFit(c.entities, c.entityVecs, dim)
    && VecsFit(c.communities, c.communityVecs, dim)
  }

  ghost predicate ReferencesOk(c: Contents) {
    && ParentsLive(c.textUnits, c.documents)
    && EndpointsLive(c.relationships, c.entities)
    && MembersLive(c.communities, c.entities, c.relationships)
    && LinksOk(c.textUnits, c.entities)
  }

  /** Ids, keys, references and embeddings of the rows agree. */
  ghost predicate WellFormed(cfg: Config, c: Contents) {
    CountersOk(c) && KeysOk(c) && ReferencesOk(c) && VecsOk(c, cfg.dim)
  }

  // ---------------------------------------------------------------- rows in and out

  function Max(a: nat, b: nat): nat {
    if a >= b then a else b
  }

  function Remember(vecs: map<Id, Vec>, id: Id, vec: Vec): map<Id, Vec> {
    if vec == [] then vecs else vecs[id := vec]
  }

  function PutDocument(c: Contents, id: Id, d: Document): Contents {
    c.(documents := c.documents[id := d], counters := c.counters.(document := Max(c.counters.document, id)))
  }

  function PutTextUnit(c: Contents, id: Id, u: TextUnit, vec: Vec): Contents {
    c.(textUnits := c.textUnits[id := u], textUnitVecs := Remember(c.textUnitVecs, id, vec),
       counters := c.counters.(textUnit := Max(c.counters.textUnit, id)))
  }

  function PutEntity(c: Contents, id: Id, e: Entity, vec: Vec): Contents {
    c.(entities := c.entities[id := e], entityVecs := Remember(c.entityVecs, id, vec),
       counters := c.counters.(entity := Max(c.counters.entity, id)))
  }

  function PutRelationship(c: Contents, id: Id, r: Relationship): Contents {
    c.(relationships := c.relationships[id := r],
       counters := c.counters.(relationship := Max(c.counters.relationship, id)))
  }

  function PutCommunity(c: Contents, id: Id, m: Community, vec: Vec): Contents {
    c.(communities := c.communities[id := m], communityVecs := Remember(c.communityVecs, id, vec),
       counters := c.counters.(community := Max(c.counters.community, id)))
  }

  // ---------------------------------------------------------------- direct writes

  datatype DocumentInput = DocumentInput(extID: string, filename: string)
  datatype TextUnitInput = TextUnitInput(extID: string, documentID: Id, content: string, embedding: Vec, tokenCount: int)
  datatype EntityInput = EntityInput(extID: string, title: string, kind: string, description: string, embedding: Vec)
  datatype RelationshipInput = RelationshipInput(extID: string, sourceID: Id, targetID: Id, kind: string,
                                                 description: string, weight: Float32)

  function NewDocument(x: DocumentInput, now: int): Document {
    Document(x.extID, x.filename, now)
  }

  function NewTextUnit(x: TextUnitInput, now: int): TextUnit {
    TextUnit(x.extID, x.documentID, x.content, [], x.tokenCount, now)
  }

  function NewEntity(cfg: Config, x: EntityInput, now: int): Entity {
    Entity(x.extID, cfg.normal(x.title), x.kind, x.description, [], now)
  }

  function NewRelationship(x: RelationshipInput, now: int): Relationship {
    Relationship(x.extID, x.sourceID, x.targetID, x.kind, x.description, if IsZero(x.weight) then ONE else x.weight, now)
  }

  /** No embedding, or one of the right length with finite entries. */
  ghost predicate EmbeddingOk(cfg: Config, vec: Vec) {
    vec != [] ==> |vec| == cfg.dim && forall i :: 0 <= i < |vec| ==> IsFinite(vec[i])
  }

  ghost predicate DocumentValid(cfg: Config, c: Contents, x: DocumentInput) {
    !cfg.blank(x.extID) && !InUse(c.documents, DocumentExt, x.extID)
  }

  ghost predicate TextUnitValid(cfg: Config, c: Contents, x: TextUnitInput) {
    && !cfg.blank(x.extID) && !InUse(c.textUnits, TextUnitExt, x.extID)
    && x.documentID in c.documents && EmbeddingOk(cfg, x.embedding)
  }

  ghost predicate EntityValid(cfg: Config, c: Contents, x: EntityInput) {
    && !cfg.blank(x.extID) && !InUse(c.entities, EntityExt, x.extID)
    && !InUse(c.entities, EntityTitle, cfg.normal(x.title)) && EmbeddingOk(cfg, x.embedding)
  }

  ghost predicate RelationshipValid(cfg: Config, c: Contents, x: RelationshipInput) {
    && x.sourceID in c.entities && x.targetID in c.entities
    && !InUse(c.relationships, RelationshipKey, RelKey(x.sourceID, x.targetID, x.kind))
    && (x.extID != "" ==> !InUse(c.relationships, RelationshipExt, x.extID))
  }

  ghost function AddDocument(cfg: Config, c: Contents, x: DocumentInput, now: int): Option<Contents> {
    var d := NewDocument(x, now);
    if DocumentValid(cfg, c, x) && Admits(cfg.quotas, UsageOf(c), 0, 0, 1, DocumentCost(d))
    then Some(PutDocument(c, c.counters.document + 1, d)) else None
  }

  ghost function AddTextUnit(cfg: Config, c: Contents, x: TextUnitInput, now: int): Option<Contents> {
    var u := NewTextUnit(x, now);
    if TextUnitValid(cfg, c, x) && Admits(cfg.quotas, UsageOf(c), 0, 0, 0, TextUnitCost(u, x.embedding))
    then Some(PutTextUnit(c, c.counters.textUnit + 1, u, x.embedding)) else None
  }

  ghost function AddEntity(cfg: Config, c: Contents, x: EntityInput, now: int): Option<Contents> {
    var e := NewEntity(cfg, x, now);
    if EntityValid(cfg, c, x) && Admits(cfg.quotas, UsageOf(c), 1, 0, 0, EntityCost(e, x.embedding))
    then Some(PutEntity(c, c.counters.entity + 1, e, x.embedding)) else None
  }

  ghost function AddRelationship(cfg: Config, c: Contents, x: RelationshipInput, now: int): Option<Contents> {
    var r := NewRelationship(x, now);
    if RelationshipValid(cfg, c, x) && Admits(cfg.quotas, UsageOf(c), 0, 1, 0, RelationshipCost(r))
    then Some(PutRelationship(c, c.counters.relationship + 1, r)) else None
  }

  // ---------------------------------------------------------------- prepared writes

  /** A row as it is logged: with the id it is to have. */
  datatype Item<V> = Item(id: Id, row: V, vec: Vec)

  ghost function PrepareDocument(cfg: Config, c: Contents, x: DocumentInput, now: int): Option<Item<Document>> {
    var d := NewDocument(x, now);
    if DocumentValid(cfg, c, x) && Admits(cfg.quotas, UsageOf(c), 0, 0, 1, DocumentCost(d))
    then Some(Item(c.counters.document + 1, d, [])) else None
  }

  ghost function PrepareTextUnit(cfg: Config, c: Contents, x: TextUnitInput, now: int): Option<Item<TextUnit>> {
    var u := NewTextUnit(x, now);
    if TextUnitValid(cfg, c, x) && Admits(cfg.quotas, UsageOf(c), 0, 0, 0, TextUnitCost(u, x.embedding))
    then Some(Item(c.counters.textUnit + 1, u, x.embedding)) else None
  }

  ghost function PrepareEntity(cfg: Config, c: Contents, x: EntityInput, now: int): Option<Item<Entity>> {
    var e := NewEntity(cfg, x, now);
    if EntityValid(cfg, c, x) && Admits(cfg.quotas, UsageOf(c), 1, 0, 0, EntityCost(e, x.embedding))
    then Some(Item(c.counters.entity + 1, e, x.embedding)) else None
  }

  ghost function PrepareRelationship(cfg: Config, c: Contents, x: RelationshipInput, now: int): Option<Item<Relationship>> {
    var r := NewRelationship(x, now);
    if RelationshipValid(cfg, c, x) && Admits(cfg.quotas, UsageOf(c), 0, 1, 0, RelationshipCost(r))
    then Some(Item(c.counters.relationship + 1, r, [])) else None
  }

  /** Logged rows are not checked against quotas, nor blank ids, nor non-finite entries. */
  ghost function ApplyDocument(c: Contents, p: Item<Document>): Option<Contents> {
    if p.id != 0 && p.id !in c.documents && !InUse(c.documents, DocumentExt, p.row.extID)
    then Some(PutDocument(c, p.id, p.row)) else None
  }

  ghost predicate IndexTakes(cfg: Config, vec: Vec) {
    vec == [] || |vec| == cfg.dim
  }

  ghost function ApplyTextUnit(cfg: Config, c: Contents, p: Item<TextUnit>): Option<Contents> {
    if p.id != 0 && p.row.documentID in c.documents && p.id !in c.textUnits
      && !InUse(c.textUnits, TextUnitExt, p.row.extID) && IndexTakes(cfg, p.vec)
    then Some(PutTextUnit(c, p.id, p.row, p.vec)) else None
  }

  ghost function ApplyEntity(cfg: Config, c: Contents, p: Item<Entity>): Option<Contents> {
    if p.id != 0 && p.id !in c.entities && !InUse(c.entities, EntityExt, p.row.extID)
      && !InUse(c.entities, EntityTitle, p.row.title) && IndexTakes(cfg, p.vec)
    then Some(PutEntity(c, p.id, p.row, p.vec)) else None
  }

  ghost function ApplyRelationship(c: Contents, p: Item<Relationship>): Option<Contents> {
    if p.id != 0 && p.row.sourceID in c.entities && p.row.targetID in c.entities && p.id !in c.relationships
      && !InUse(c.relationships, RelationshipKey, RelationshipKey(p.row).value)
      && (p.row.extID != "" ==> !InUse(c.relationships, RelationshipExt, p.row.extID))
    then Some(PutRelationship(c, p.id, p.row)) else None
  }

  // ---------------------------------------------------------------- deletions

  ghost function DeleteDocument(c: Contents, id: Id): Option<Contents> {
    if id in c.documents && !InUse(c.textUnits, TextUnitParent, id)
    then Some(c.(documents := c.documents - {id})) else None
  }

  ghost function DeleteTextUnit(c: Contents, id: Id): Option<Contents> {
    if id in c.textUnits && c.textUnits[id].entityIDs == []
    then Some(c.(textUnits := c.textUnits - {id}, textUnitVecs := c.textUnitVecs - {id})) else None
  }

  ghost predicate InSomeCommunity(communities: map<Id, Community>, id: Id) {
    exists m: Id :: m in communities && id in communities[m].entityIDs
  }

  ghost predicate RelInSomeCommunity(communities: map<Id, Community>, id: Id) {
    exists m: Id :: m in communities && id in communities[m].relationshipIDs
  }

  ghost function DeleteEntity(c: Contents, id: Id): Option<Contents> {
    if id in c.entities && c.entities[id].textUnitIDs == []
      && !InUse(c.relationships, RelationshipSource, id) && !InUse(c.relationships, RelationshipTarget, id)
      && !InSomeCommunity(c.communities, id)
    then Some(c.(entities := c.entities - {id}, entityVecs := c.entityVecs - {id})) else None
  }

  ghost function DeleteRelationship(c: Contents, id: Id): Option<Contents> {
    if id in c.relationships && !RelInSomeCommunity(c.communities, id)
    then Some(c.(relationships := c.relationships - {id})) else None
  }

  // ---------------------------------------------------------------- links and communities

  function AddTo(ids: seq<Id>, id: Id): seq<Id> {
    if id in ids then ids else ids + [id]
  }

  ghost function Link(c: Contents, textUnitID: Id, entityID: Id): Option<Contents> {
    if textUnitID in c.textUnits && entityID in c.entities then
      var u, e := c.textUnits[textUnitID], c.entities[entityID];
      Some(c.(textUnits := c.textUnits[textUnitID := u.(entityIDs := AddTo(u.entityIDs, entityID))],
              entities := c.entities[entityID := e.(textUnitIDs := AddTo(e.textUnitIDs, textUnitID))]))
    else None
  }

  ghost predicate CommunityFits(cfg: Config, c: Contents, m: Community, vec: Vec) {
    AllIn(m.entityIDs, c.entities) && AllIn(m.relationshipIDs, c.relationships) && EmbeddingOk(cfg, vec)
  }

  ghost function AddCommunity(cfg: Config, c: Contents, m: Community, vec: Vec): Option<Contents> {
    if (m.extID != "" ==> !InUse(c.communities, CommunityExt, m.extID)) && CommunityFits(cfg, c, m, vec)
      && Admits(cfg.quotas, UsageOf(c), 0, 0, 0, CommunityCost(m, vec))
    then Some(PutCommunity(c, c.counters.community + 1, m, vec)) else None
  }

  ghost function DeleteCommunity(c: Contents, id: Id): Option<Contents> {
    if id in c.communities
    then Some(c.(communities := c.communities - {id}, communityVecs := c.communityVecs - {id})) else None
  }

  function WithoutCommunities(c: Contents): Contents {
    c.(communities := map[], communityVecs := map[])
  }

  /** Distinct non-zero ids, distinct non-empty external ids. */
  ghost predicate Separate(items: seq<Item<Community>>) {
    && (forall i :: 0 <= i < |items| ==> items[i].id != 0)
    && (forall i, j :: 0 <= i < j < |items| ==> items[i].id != items[j].id)
    && (forall i, j :: 0 <= i < j < |items| && items[i].row.extID != "" ==> items[i].row.extID != items[j].row.extID)
  }

  function PutCommunities(c: Contents, items: seq<Item<Community>>): Contents {
    if items == [] then c
    else
      var p := items[|items| - 1];
      PutCommunity(PutCommunities(c, items[..|items| - 1]), p.id, p.row, p.vec)
  }

  /** All communities are replaced; only the growth in memory is checked. */
  ghost function ReplaceCommunities(cfg: Config, c: Contents, items: seq<Item<Community>>): Option<Contents> {
    var next := PutCommunities(WithoutCommunities(c), items);
    if Separate(items) && (forall i :: 0 <= i < |items| ==> CommunityFits(cfg, c, items[i].row, items[i].vec))
      && Admits(cfg.quotas, UsageOf(c), 0, 0, 0, UsageOf(next).memory - UsageOf(c).memory)
    then Some(next) else None
  }
}
