/**
 Exactly when a write or a deletion succeeds, in terms of the rows of the store.
 */
module StoreOutcomes {

  import opened Collections
  import opened Tables
  import opened Wrappers
  import opened StoreContents
  import opened StoreWrites
  import opened StoreRows

  /** What the input says can be stored: it is named where it must be, and refers only to rows that are there. */
  ghost predicate Sensible(cfg: Config, c: Contents, x: Input) {
    match x
    case DocumentIn(y) => !cfg.blank(y.extID)
    case TextUnitIn(y) => !cfg.blank(y.extID) && y.documentID in c.documents && Indexable(cfg, y.embedding)
    case EntityIn(y) => !cfg.blank(y.extID) && Indexable(cfg, y.embedding)
    case RelationshipIn(y) => y.sourceID in c.entities && y.targetID in c.entities
  }

  ghost predicate Indexable(cfg: Config, vec: Vec) {
    |vec| == 0 || (|vec| == cfg.dim && forall i :: 0 <= i < |vec| ==> IsFinite(vec[i]))
  }

  /** No row of its kind has the input's external id, its title, or its ends and kind. */
  ghost predicate Unclaimed(cfg: Config, c: Contents, x: Input) {
    match x
    case DocumentIn(y) => forall i: Id :: i in c.documents ==> c.documents[i].extID != y.extID
    case TextUnitIn(y) => forall i: Id :: i in c.textUnits ==> c.textUnits[i].extID != y.extID
    case EntityIn(y) =>
      forall i: Id :: i in c.entities ==> c.entities[i].extID != y.extID && c.entities[i].title != cfg.normal(y.title)
    case RelationshipIn(y) =>
      forall i: Id :: i in c.relationships ==>
        && (y.extID != "" ==> c.relationships[i].extID != y.extID)
        && !(c.relationships[i].sourceID == y.sourceID && c.relationships[i].targetID == y.targetID && c.relationships[i].kind == y.kind)
  }

  /** The estimate of the row the input makes. */
  function Size(cfg: Config, x: Input): nat {
    match x
    case DocumentIn(y) => 128 + |y.extID| + |y.filename|
    case TextUnitIn(y) => 160 + |y.extID| + |y.content| + 4 * |y.embedding|
    case EntityIn(y) => 192 + |y.extID| + |cfg.normal(y.title)| + |y.kind| + |y.description| + 4 * |y.embedding|
    case RelationshipIn(y) => 160 + |y.extID| + |y.kind| + |y.description|
  }

  /** One row more of its kind, and its size, stay within the quotas that are set. */
  ghost predicate Fits(cfg: Config, c: Contents, x: Input) {
    var q := cfg.quotas;
    && (x.DocumentIn? && q.maxDocuments > 0 ==> |c.documents| < q.maxDocuments)
    && (x.EntityIn? && q.maxEntities > 0 ==> |c.entities| < q.maxEntities)
    && (x.RelationshipIn? && q.maxRelationships > 0 ==> |c.relationships| < q.maxRelationships)
    && (q.maxMemoryBytes > 0 ==> UsageOf(c).memory + Size(cfg, x) <= q.maxMemoryBytes)
  }

  /** A write succeeds exactly when it can be stored, nothing has its keys and the quotas have room. */
  lemma AddSucceeds(cfg: Config, c: Contents, x: Input, now: int)
    ensures Add(cfg, c, x, now).Some? <==> Sensible(cfg, c, x) && Unclaimed(cfg, c, x) && Fits(cfg, c, x)
  {
    hide DocumentMemory, TextUnitMemory, EntityMemory, RelationshipMemory, CommunityMemory, Fits, Admits, InUse;
    KeysAreUnclaimed(cfg, c, x);
    FitsIsAdmitted(cfg, c, x, now);
  }

  lemma KeysAreUnclaimed(cfg: Config, c: Contents, x: Input)
    ensures Unclaimed(cfg, c, x) <==>
      match x
      case DocumentIn(y) => !InUse(c.documents, DocumentExt, y.extID)
      case TextUnitIn(y) => !InUse(c.textUnits, TextUnitExt, y.extID)
      case EntityIn(y) => !InUse(c.entities, EntityExt, y.extID) && !InUse(c.entities, EntityTitle, cfg.normal(y.title))
      case RelationshipIn(y) =>
        && !InUse(c.relationships, RelationshipKey, RelKey(y.sourceID, y.targetID, y.kind))
        && (y.extID != "" ==> !InUse(c.relationships, RelationshipExt, y.extID))
  {
  }

  lemma FitsIsAdmitted(cfg: Config, c: Contents, x: Input, now: int)
    ensures Fits(cfg, c, x) <==>
      match x
      case DocumentIn(y) => Admits(cfg.quotas, UsageOf(c), 0, 0, 1, DocumentCost(NewDocument(y, now)))
      case TextUnitIn(y) => Admits(cfg.quotas, UsageOf(c), 0, 0, 0, TextUnitCost(NewTextUnit(y, now), y.embedding))
      case EntityIn(y) => Admits(cfg.quotas, UsageOf(c), 1, 0, 0, EntityCost(NewEntity(cfg, y, now), y.embedding))
      case RelationshipIn(y) => Admits(cfg.quotas, UsageOf(c), 0, 1, 0, RelationshipCost(NewRelationship(y, now)))
  {
    hide DocumentMemory, TextUnitMemory, EntityMemory, RelationshipMemory, CommunityMemory;
  }

  /** A document goes exactly when no text unit is of it, and goes alone. */
  lemma DocumentGoes(c: Contents, id: Id)
    ensures DeleteDocument(c, id).Some? <==>
      id in c.documents && forall u: Id :: u in c.textUnits ==> c.textUnits[u].documentID != id
    ensures DeleteDocument(c, id).Some? ==>
      var d := DeleteDocument(c, id).value;
      OneMoreRow(d.documents, c.documents, id) && d == c.(documents := d.documents)
  {
    if exists u: Id :: u in c.textUnits && c.textUnits[u].documentID == id {
      assert InUse(c.textUnits, TextUnitParent, id);
    }
  }

  /** A text unit goes exactly when it is linked to no entity, with its embedding and alone. */
  lemma TextUnitGoes(c: Contents, id: Id)
    ensures DeleteTextUnit(c, id).Some? <==> id in c.textUnits && |c.textUnits[id].entityIDs| == 0
    ensures DeleteTextUnit(c, id).Some? ==>
      var d := DeleteTextUnit(c, id).value;
      && OneMoreRow(d.textUnits, c.textUnits, id) && SameVecsBut(c.textUnitVecs, d.textUnitVecs, id) && id !in d.textUnitVecs
      && d == c.(textUnits := d.textUnits, textUnitVecs := d.textUnitVecs)
  {
  }

  /** An entity goes exactly when it has no text unit, ends no relationship and is in no community, with its embedding and alone. */
  lemma EntityGoes(c: Contents, id: Id)
    ensures DeleteEntity(c, id).Some? <==>
      && id in c.entities && |c.entities[id].textUnitIDs| == 0
      && (forall r: Id :: r in c.relationships ==> c.relationships[r].sourceID != id && c.relationships[r].targetID != id)
      && (forall m: Id :: m in c.communities ==> id !in c.communities[m].entityIDs)
    ensures DeleteEntity(c, id).Some? ==>
      var d := DeleteEntity(c, id).value;
      && OneMoreRow(d.entities, c.entities, id) && SameVecsBut(c.entityVecs, d.entityVecs, id) && id !in d.entityVecs
      && d == c.(entities := d.entities, entityVecs := d.entityVecs)
  {
    if exists r: Id :: r in c.relationships && c.relationships[r].sourceID == id {
      assert InUse(c.relationships, RelationshipSource, id);
    }
    if exists r: Id :: r in c.relationships && c.relationships[r].targetID == id {
      assert InUse(c.relationships, RelationshipTarget, id);
    }
  }

  /** A relationship goes exactly when no community lists it, and goes alone. */
  lemma RelationshipGoes(c: Contents, id: Id)
    ensures DeleteRelationship(c, id).Some? <==>
      id in c.relationships && forall m: Id :: m in c.communities ==> id !in c.communities[m].relationshipIDs
    ensures DeleteRelationship(c, id).Some? ==>
      var d := DeleteRelationship(c, id).value;
      OneMoreRow(d.relationships, c.relationships, id) && d == c.(relationships := d.relationships)
  {
  }

  /** Linking succeeds for live rows; each then lists the other once more if it did not, and nothing else changes. */
  lemma LinkStores(c: Contents, ui: Id, ei: Id)
    ensures Link(c, ui, ei).Some? <==> ui in c.textUnits && ei in c.entities
    ensures Link(c, ui, ei).Some? ==>
      var d, u, e := Link(c, ui, ei).value, c.textUnits[ui], c.entities[ei];
      && d.textUnits.Keys == c.textUnits.Keys && d.entities.Keys == c.entities.Keys
      && d.textUnits[ui] == u.(entityIDs := if ei in u.entityIDs then u.entityIDs else u.entityIDs + [ei])
      && d.entities[ei] == e.(textUnitIDs := if ui in e.textUnitIDs then e.textUnitIDs else e.textUnitIDs + [ui])
      && (forall i: Id :: i in c.textUnits && i != ui ==> d.textUnits[i] == c.textUnits[i])
      && (forall i: Id :: i in c.entities && i != ei ==> d.entities[i] == c.entities[i])
      && d == c.(textUnits := d.textUnits, entities := d.entities)
  {
  }
}
