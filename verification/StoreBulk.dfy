/**
 The loops of the bulk writes of entities and relationships: one check of all, then one
 insertion after the other, taken back if the vector index refuses an embedding.
 */
module StoreBulk {

  import opened Collections
  import opened Tables
  import opened Wrappers
  import opened StoreContents
  import opened StoreWrites
  import opened StoreTables
  import opened StoreBatches

  // ---------------------------------------------------------------- batches of one kind

  ghost function IdAt<V>(items: seq<Item<V>>): nat -> Option<Id> {
    (j: nat) => if j < |items| then Some(items[j].id) else None
  }

  ghost function KeyAt<V, K>(items: seq<Item<V>>, key: V -> Option<K>): nat -> Option<K> {
    (j: nat) => if j < |items| then key(items[j].row) else None
  }

  /** The n-th has a key none before it has. */
  ghost predicate NewKey<K>(key: nat -> Option<K>, n: nat) {
    key(n).Some? ==> forall j: nat :: j < n ==> key(j) != key(n)
  }

  ghost predicate NextOk(cfg: Config, c: Contents, ps: seq<Logged>, n: nat)
    requires n < |ps|
  {
    Apply(cfg, c, ps[n]).Some? && forall j: nat :: j < n ==> !Clash(ps[j], ps[n])
  }

  lemma BatchableNext(cfg: Config, c: Contents, ps: seq<Logged>, n: nat)
    requires n < |ps| && Batchable(cfg, c, ps[..n])
    ensures Batchable(cfg, c, ps[..n + 1]) <==> NextOk(cfg, c, ps, n)
  {
  }

  // ---------------------------------------------------------------- entities

  function EntityLogs(items: seq<Item<Entity>>): (ps: seq<Logged>)
    ensures |ps| == |items| && forall i :: 0 <= i < |items| ==> ps[i] == EntityLog(items[i])
  {
    seq(|items|, (i: nat) requires i < |items| => EntityLog(items[i]))
  }

  function EntityIns(xs: seq<EntityInput>): (ins: seq<Input>)
    ensures |ins| == |xs| && forall i :: 0 <= i < |xs| ==> ins[i] == EntityIn(xs[i])
  {
    seq(|xs|, (i: nat) requires i < |xs| => EntityIn(xs[i]))
  }

  function EntityItems(cfg: Config, counter: nat, xs: seq<EntityInput>, now: int): (items: seq<Item<Entity>>)
    ensures |items| == |xs|
    ensures forall i :: 0 <= i < |xs| ==> items[i] == Item(counter + i + 1, NewEntity(cfg, xs[i], now), xs[i].embedding)
  {
    seq(|xs|, (i: nat) requires i < |xs| => Item(counter + i + 1, NewEntity(cfg, xs[i], now), xs[i].embedding))
  }

  /** What the check of a batch asks of the n-th row; its embedding is left to the vector index. */
  ghost predicate EntityNext(rows: map<Id, Entity>, items: seq<Item<Entity>>, n: nat)
    requires n < |items|
  {
    && items[n].id != 0 && items[n].id !in rows && NewKey(IdAt(items), n)
    && !InUse(rows, EntityExt, items[n].row.extID) && NewKey(KeyAt(items, EntityExt), n)
    && !InUse(rows, EntityTitle, items[n].row.title) && NewKey(KeyAt(items, EntityTitle), n)
  }

  ghost predicate EntitiesFree(rows: map<Id, Entity>, items: seq<Item<Entity>>, n: nat)
    requires n <= |items|
  {
    forall i :: 0 <= i < n ==> EntityNext(rows, items, i)
  }

  lemma EntityKeysAt(items: seq<Item<Entity>>, n: nat)
    requires n < |items|
    ensures IdAt(items)(n) == Some(items[n].id)
    ensures KeyAt(items, EntityExt)(n) == Some(items[n].row.extID)
    ensures KeyAt(items, EntityTitle)(n) == Some(items[n].row.title)
  {
    assert EntityExt(items[n].row) == Some(items[n].row.extID);
    assert EntityTitle(items[n].row) == Some(items[n].row.title);
  }

  lemma EntityNextIsNext(cfg: Config, c: Contents, items: seq<Item<Entity>>, n: nat)
    requires n < |items|
    ensures NextOk(cfg, c, EntityLogs(items), n) <==> EntityNext(c.entities, items, n) && IndexTakes(cfg, items[n].vec)
  {
    forall j: nat | j <= n ensures IdAt(items)(j) == Some(items[j].id)
      && KeyAt(items, EntityExt)(j) == Some(items[j].row.extID)
      && KeyAt(items, EntityTitle)(j) == Some(items[j].row.title) {
      EntityKeysAt(items, j);
    }
  }

  lemma {:induction false} EntitiesFreeIsBatchable(cfg: Config, c: Contents, items: seq<Item<Entity>>, n: nat)
    requires n <= |items| && forall i :: 0 <= i < n ==> IndexTakes(cfg, items[i].vec)
    ensures EntitiesFree(c.entities, items, n) <==> Batchable(cfg, c, EntityLogs(items)[..n])
    decreases n
  {
    hide EntityNext, NextOk;
    var ps := EntityLogs(items);
    if n > 0 {
      EntitiesFreeIsBatchable(cfg, c, items, n - 1);
      EntityNextIsNext(cfg, c, items, n - 1);
      if Batchable(cfg, c, ps[..n - 1]) {
        BatchableNext(cfg, c, ps, n - 1);
      }
    }
  }

  /** The check a bulk write or its preparation makes of its inputs, with the total estimate. */
  method CheckEntities(cfg: Config, t: EntityTable, xs: seq<EntityInput>, counter: nat, now: int)
      returns (ok: bool, items: seq<Item<Entity>>, memory: nat)
    requires EntitiesOk(t) && IdsBelow(t.rows, counter)
    ensures var all := EntityItems(cfg, counter, xs, now);
      && (ok <==> InputsOk(cfg, EntityIns(xs)) && EntitiesFree(t.rows, all, |all|))
      && (ok ==> items == all && TotalGrowth(EntityLogs(all)) == Growth(|xs|, 0, 0, memory))
  {
    hide EntitiesOk, EntityNext, Saw, InUse, EmbeddingOk, TotalGrowth, IdsBelow;
    ghost var all := EntityItems(cfg, counter, xs, now);
    var seenExtID: set<string> := {};
    var seenTitle: set<string> := {};
    items, memory := [], 0;
    SawNone(KeyAt(all, EntityExt));
    SawNone(KeyAt(all, EntityTitle));
    NoGrowth(EntityLogs(all));
    for i := 0 to |xs|
      invariant items == all[..i]
      invariant forall j :: 0 <= j < i ==> InputOk(cfg, EntityIn(xs[j]))
      invariant EntitiesFree(t.rows, all, i)
      invariant Saw(seenExtID, i, KeyAt(all, EntityExt)) && Saw(seenTitle, i, KeyAt(all, EntityTitle))
      invariant TotalGrowth(EntityLogs(all)[..i]) == Growth(i, 0, 0, memory)
    {
      var x := xs[i];
      var title := cfg.normal(x.title);
      EntityKeysAt(all, i);
      EntityChecked(cfg, t, xs, counter, now, i, seenExtID, seenTitle);
      if cfg.blank(x.extID) {
        return false, [], 0;
      }
      if title in t.byTitle || title in seenTitle || x.extID in t.byExtID || x.extID in seenExtID {
        return false, [], 0;
      }
      var fits := ValidateOptionalEmbedding(cfg, x.embedding);
      if !fits {
        return false, [], 0;
      }
      SeesNext(seenExtID, i, KeyAt(all, EntityExt));
      SeesNext(seenTitle, i, KeyAt(all, EntityTitle));
      seenExtID := seenExtID + {x.extID};
      seenTitle := seenTitle + {title};
      var e := NewEntity(cfg, x, now);
      items := items + [Item(counter + i + 1, e, x.embedding)];
      MoreGrowth(EntityLogs(all), i);
      memory := memory + EntityCost(e, x.embedding);
    }
    assert all[..|xs|] == all && EntityLogs(all)[..|xs|] == EntityLogs(all);
    return true, items, memory;
  }

  lemma SawNone<K>(key: nat -> Option<K>)
    ensures Saw({}, 0, key)
  {
  }

  lemma NoGrowth(ps: seq<Logged>)
    ensures TotalGrowth(ps[..0]) == Growth(0, 0, 0, 0)
  {
  }

  lemma MoreGrowth(ps: seq<Logged>, n: nat)
    requires n < |ps|
    ensures TotalGrowth(ps[..n + 1]) == Both(TotalGrowth(ps[..n]), GrowthOf(ps[n]))
  {
    assert ps[..n + 1][..n] == ps[..n];
  }

  /** What the indexes and the sets say about the next input. */
  lemma EntityChecked(cfg: Config, t: EntityTable, xs: seq<EntityInput>, counter: nat, now: int, n: nat,
                      seenExtID: set<string>, seenTitle: set<string>)
    requires EntitiesOk(t) && IdsBelow(t.rows, counter) && n < |xs|
    requires var all := EntityItems(cfg, counter, xs, now);
      Saw(seenExtID, n, KeyAt(all, EntityExt)) && Saw(seenTitle, n, KeyAt(all, EntityTitle))
    ensures var all := EntityItems(cfg, counter, xs, now);
      EntityNext(t.rows, all, n) <==>
        && xs[n].extID !in t.byExtID && xs[n].extID !in seenExtID
        && cfg.normal(xs[n].title) !in t.byTitle && cfg.normal(xs[n].title) !in seenTitle
  {
    hide EntitiesOk, Saw, InUse;
    var all := EntityItems(cfg, counter, xs, now);
    EntityLookup(t, xs[n].extID, cfg.normal(xs[n].title));
    IsNew(seenExtID, n, KeyAt(all, EntityExt));
    IsNew(seenTitle, n, KeyAt(all, EntityTitle));
  }

  /** The check made of logged rows. */
  method CheckEntityItems(t: EntityTable, items: seq<Item<Entity>>) returns (ok: bool)
    requires EntitiesOk(t)
    ensures ok <==> EntitiesFree(t.rows, items, |items|)
  {
    hide EntitiesOk, EntityNext, Saw, InUse;
    var seenID: set<Id> := {};
    var seenExtID: set<string> := {};
    var seenTitle: set<string> := {};
    SawNone(IdAt(items));
    SawNone(KeyAt(items, EntityExt));
    SawNone(KeyAt(items, EntityTitle));
    for i := 0 to |items|
      invariant EntitiesFree(t.rows, items, i)
      invariant Saw(seenID, i, IdAt(items))
      invariant Saw(seenExtID, i, KeyAt(items, EntityExt)) && Saw(seenTitle, i, KeyAt(items, EntityTitle))
    {
      var p := items[i];
      EntityKeysAt(items, i);
      EntityItemChecked(t, items, i, seenID, seenExtID, seenTitle);
      if p.id == 0 || p.id in seenID || p.id in t.rows || p.row.extID in seenExtID || p.row.extID in t.byExtID
        || p.row.title in seenTitle || p.row.title in t.byTitle {
        return false;
      }
      SeesNext(seenID, i, IdAt(items));
      SeesNext(seenExtID, i, KeyAt(items, EntityExt));
      SeesNext(seenTitle, i, KeyAt(items, EntityTitle));
      seenID, seenExtID, seenTitle := seenID + {p.id}, seenExtID + {p.row.extID}, seenTitle + {p.row.title};
    }
    return true;
  }

  lemma EntityItemChecked(t: EntityTable, items: seq<Item<Entity>>, n: nat, seenID: set<Id>, seenExtID: set<string>,
                          seenTitle: set<string>)
    requires EntitiesOk(t) && n < |items| && Saw(seenID, n, IdAt(items))
    requires Saw(seenExtID, n, KeyAt(items, EntityExt)) && Saw(seenTitle, n, KeyAt(items, EntityTitle))
    ensures EntityNext(t.rows, items, n) <==>
      && items[n].id != 0 && items[n].id !in t.rows && items[n].id !in seenID
      && items[n].row.extID !in t.byExtID && items[n].row.extID !in seenExtID
      && items[n].row.title !in t.byTitle && items[n].row.title !in seenTitle
  {
    hide EntitiesOk, Saw, InUse;
    EntityKeysAt(items, n);
    EntityLookup(t, items[n].row.extID, items[n].row.title);
    IsNew(seenID, n, IdAt(items));
    IsNew(seenExtID, n, KeyAt(items, EntityExt));
    IsNew(seenTitle, n, KeyAt(items, EntityTitle));
  }

  ghost predicate AllTaken(cfg: Config, items: seq<Item<Entity>>) {
    forall i :: 0 <= i < |items| ==> IndexTakes(cfg, items[i].vec)
  }

  /** A row that passed the check is still free after those before it are in. */
  lemma EntityStillFree(cfg: Config, c: Contents, items: seq<Item<Entity>>, n: nat, d: Contents)
    requires n < |items| && EntitiesFree(c.entities, items, |items|)
    requires ApplyAll(cfg, c, EntityLogs(items)[..n]) == Some(d)
    ensures items[n].id !in d.entities && !InUse(d.entities, EntityExt, items[n].row.extID)
    ensures !InUse(d.entities, EntityTitle, items[n].row.title)
    ensures IndexTakes(cfg, items[n].vec) ==>
      ApplyAll(cfg, c, EntityLogs(items)[..n + 1]) == Some(PutEntity(d, items[n].id, items[n].row, items[n].vec))
  {
    hide InUse, EntityNext;
    var ps := EntityLogs(items);
    var bare := items[n := items[n].(vec := [])];
    var q := EntityLog(bare[n]);
    SameNext(c.entities, items, n);
    EntityNextIsNext(cfg, c, bare, n);
    assert forall j: nat :: j < n ==> EntityLogs(bare)[j] == ps[..n][j];
    AppliesAfterAll(cfg, c, ps[..n], q);
    assert ps[..n + 1][..n] == ps[..n];
  }

  lemma SameNext(rows: map<Id, Entity>, items: seq<Item<Entity>>, n: nat)
    requires n < |items|
    ensures EntityNext(rows, items[n := items[n].(vec := [])], n) <==> EntityNext(rows, items, n)
  {
    var bare := items[n := items[n].(vec := [])];
    assert forall j: nat :: IdAt(bare)(j) == IdAt(items)(j);
    assert forall j: nat :: KeyAt(bare, EntityExt)(j) == KeyAt(items, EntityExt)(j);
    assert forall j: nat :: KeyAt(bare, EntityTitle)(j) == KeyAt(items, EntityTitle)(j);
  }

  /** What was inserted is taken out again, in order. */
  method RollbackEntities(t: EntityTable, ids: seq<Id>) returns (u: EntityTable)
    requires EntitiesOk(t) && Distinct(ids) && forall i: Id :: i in ids ==> i in t.rows
    ensures EntitiesOk(u) && u.rows == t.rows - Members(ids) && u.vecs == t.vecs - Members(ids)
  {
    hide EntitiesOk;
    u := t;
    for k := 0 to |ids|
      invariant EntitiesOk(u)
      invariant u.rows == t.rows - Members(ids[..k]) && u.vecs == t.vecs - Members(ids[..k])
    {
      u := RemoveEntity(u, ids[k]);
    }
  }

  /** All the rows, or none if the vector index refuses one. */
  method InsertEntities(cfg: Config, t: EntityTable, items: seq<Item<Entity>>, ghost c: Contents)
      returns (u: EntityTable, ok: bool)
    requires EntitiesOk(t) && c.entities == t.rows && c.entityVecs == t.vecs && EntitiesFree(t.rows, items, |items|)
    requires forall i: Id :: i in t.vecs ==> i in t.rows
    ensures EntitiesOk(u) && (ok <==> AllTaken(cfg, items))
    ensures ok ==> ApplyAll(cfg, c, EntityLogs(items)).Some?
    ensures ok ==>
      var d := ApplyAll(cfg, c, EntityLogs(items)).value; u.rows == d.entities && u.vecs == d.entityVecs
    ensures !ok ==> u.rows == t.rows && u.vecs == t.vecs
  {
    hide EntitiesOk, EntitiesFree, InUse, ApplyAll;
    u, ok := t, true;
    var ids: seq<Id> := [];
    ghost var d := c;
    ApplyNone(cfg, c, EntityLogs(items));
    for i := 0 to |items|
      invariant EntitiesOk(u) && ApplyAll(cfg, c, EntityLogs(items)[..i]) == Some(d)
      invariant u.rows == d.entities && u.vecs == d.entityVecs
      invariant forall j :: 0 <= j < i ==> IndexTakes(cfg, items[j].vec)
      invariant Distinct(ids) && (forall v: Id :: v in ids ==> v in u.rows && v !in t.rows)
      invariant u.rows - Members(ids) == t.rows && u.vecs - Members(ids) == t.vecs
    {
      var p := items[i];
      EntityStillFree(cfg, c, items, i, d);
      EntityLookup(u, p.row.extID, p.row.title);
      u, ok := InsertEntity(u, cfg.dim, p.id, p.row, p.vec);
      if !ok {
        u := RollbackEntities(u, ids);
        return;
      }
      d := PutEntity(d, p.id, p.row, p.vec);
      assert Members(ids + [p.id]) == Members(ids) + {p.id};
      ids := ids + [p.id];
    }
    assert EntityLogs(items)[..|items|] == EntityLogs(items);
  }

  lemma ApplyNone(cfg: Config, c: Contents, ps: seq<Logged>)
    ensures ApplyAll(cfg, c, ps[..0]) == Some(c)
  {
  }

  function LargestId<V>(items: seq<Item<V>>): nat {
    if items == [] then 0 else Max(LargestId(items[..|items| - 1]), items[|items| - 1].id)
  }

  /** Beyond the table, a batch of entities moves one counter, to its largest id if that is ahead. */
  lemma {:induction false} EntitiesElsewhere(cfg: Config, c: Contents, items: seq<Item<Entity>>)
    requires ApplyAll(cfg, c, EntityLogs(items)).Some?
    ensures var d := ApplyAll(cfg, c, EntityLogs(items)).value;
      d == c.(entities := d.entities, entityVecs := d.entityVecs,
              counters := c.counters.(entity := Max(c.counters.entity, LargestId(items))))
    decreases |items|
  {
    if items != [] {
      var n := |items| - 1;
      assert EntityLogs(items)[..n] == EntityLogs(items[..n]);
      EntitiesElsewhere(cfg, c, items[..n]);
    }
  }

  // ---------------------------------------------------------------- relationships

  function RelationshipLogs(items: seq<Item<Relationship>>): (ps: seq<Logged>)
    ensures |ps| == |items| && forall i :: 0 <= i < |items| ==> ps[i] == RelationshipLog(items[i])
  {
    seq(|items|, (i: nat) requires i < |items| => RelationshipLog(items[i]))
  }

  function RelationshipIns(xs: seq<RelationshipInput>): (ins: seq<Input>)
    ensures |ins| == |xs| && forall i :: 0 <= i < |xs| ==> ins[i] == RelationshipIn(xs[i])
  {
    seq(|xs|, (i: nat) requires i < |xs| => RelationshipIn(xs[i]))
  }

  function RelationshipItems(counter: nat, xs: seq<RelationshipInput>, now: int): (items: seq<Item<Relationship>>)
    ensures |items| == |xs|
    ensures forall i :: 0 <= i < |xs| ==> items[i] == Item(counter + i + 1, NewRelationship(xs[i], now), [])
  {
    seq(|xs|, (i: nat) requires i < |xs| => Item(counter + i + 1, NewRelationship(xs[i], now), []))
  }

  ghost predicate RelationshipNext(c: Contents, items: seq<Item<Relationship>>, n: nat)
    requires n < |items|
  {
    var r := items[n].row;
    && items[n].id != 0 && items[n].id !in c.relationships && NewKey(IdAt(items), n)
    && r.sourceID in c.entities && r.targetID in c.entities
    && !InUse(c.relationships, RelationshipKey, RelKey(r.sourceID, r.targetID, r.kind))
    && NewKey(KeyAt(items, RelationshipKey), n)
    && (r.extID != "" ==> !InUse(c.relationships, RelationshipExt, r.extID))
    && NewKey(KeyAt(items, RelationshipExt), n)
  }

  ghost predicate RelationshipsFree(c: Contents, items: seq<Item<Relationship>>, n: nat)
    requires n <= |items|
  {
    forall i :: 0 <= i < n ==> RelationshipNext(c, items, i)
  }

  lemma RelationshipKeysAt(items: seq<Item<Relationship>>, n: nat)
    requires n < |items|
    ensures IdAt(items)(n) == Some(items[n].id)
    ensures KeyAt(items, RelationshipKey)(n) == Some(RelKey(items[n].row.sourceID, items[n].row.targetID, items[n].row.kind))
    ensures KeyAt(items, RelationshipExt)(n) == if items[n].row.extID == "" then None else Some(items[n].row.extID)
  {
    assert RelationshipKey(items[n].row).Some? && RelationshipExt(items[n].row) == RelationshipExt(items[n].row);
  }

  lemma RelationshipNextIsNext(cfg: Config, c: Contents, items: seq<Item<Relationship>>, n: nat)
    requires n < |items|
    ensures NextOk(cfg, c, RelationshipLogs(items), n) <==> RelationshipNext(c, items, n)
  {
    forall j: nat | j <= n
      ensures IdAt(items)(j) == Some(items[j].id)
      ensures KeyAt(items, RelationshipKey)(j) == Some(RelKey(items[j].row.sourceID, items[j].row.targetID, items[j].row.kind))
      ensures KeyAt(items, RelationshipExt)(j) == if items[j].row.extID == "" then None else Some(items[j].row.extID)
    {
      RelationshipKeysAt(items, j);
    }
  }

  lemma {:induction false} RelationshipsFreeIsBatchable(cfg: Config, c: Contents, items: seq<Item<Relationship>>, n: nat)
    requires n <= |items|
    ensures RelationshipsFree(c, items, n) <==> Batchable(cfg, c, RelationshipLogs(items)[..n])
    decreases n
  {
    hide RelationshipNext, NextOk;
    var ps := RelationshipLogs(items);
    if n > 0 {
      RelationshipsFreeIsBatchable(cfg, c, items, n - 1);
      RelationshipNextIsNext(cfg, c, items, n - 1);
      if Batchable(cfg, c, ps[..n - 1]) {
        BatchableNext(cfg, c, ps, n - 1);
      }
    }
  }

  /** The check a bulk write or its preparation makes of its inputs, with the total estimate. */
  method CheckRelationships(t: RelationshipTable, entities: map<Id, Entity>, xs: seq<RelationshipInput>, counter: nat,
                            now: int, ghost c: Contents)
      returns (ok: bool, items: seq<Item<Relationship>>, memory: nat)
    requires RelationshipsOk(t) && c.relationships == t.rows && c.entities == entities && IdsBelow(t.rows, counter)
    ensures var all := RelationshipItems(counter, xs, now);
      && (ok <==> RelationshipsFree(c, all, |all|))
      && (ok ==> items == all && TotalGrowth(RelationshipLogs(all)) == Growth(0, |xs|, 0, memory))
  {
    hide RelationshipsOk, RelationshipNext, Saw, InUse, TotalGrowth, IdsBelow;
    ghost var all := RelationshipItems(counter, xs, now);
    var seenExtID: set<string> := {};
    var seenIdentity: set<RelKey> := {};
    items, memory := [], 0;
    SawNone(KeyAt(all, RelationshipExt));
    SawNone(KeyAt(all, RelationshipKey));
    NoGrowth(RelationshipLogs(all));
    for i := 0 to |xs|
      invariant items == all[..i] && RelationshipsFree(c, all, i)
      invariant Saw(seenExtID, i, KeyAt(all, RelationshipExt)) && Saw(seenIdentity, i, KeyAt(all, RelationshipKey))
      invariant TotalGrowth(RelationshipLogs(all)[..i]) == Growth(0, i, 0, memory)
    {
      var x := xs[i];
      var key := RelKey(x.sourceID, x.targetID, x.kind);
      IdsAreNew(t, counter, xs, now, i);
      RelationshipChecked(t, c, all, i, seenExtID, seenIdentity);
      if x.sourceID !in entities || x.targetID !in entities || key in t.bySourceTarget || key in seenIdentity {
        return false, [], 0;
      }
      if x.extID != "" && (x.extID in t.byExtID || x.extID in seenExtID) {
        return false, [], 0;
      }
      SeesNext(seenExtID, i, KeyAt(all, RelationshipExt));
      SeesNext(seenIdentity, i, KeyAt(all, RelationshipKey));
      if x.extID != "" {
        seenExtID := seenExtID + {x.extID};
      }
      seenIdentity := seenIdentity + {key};
      var r := NewRelationship(x, now);
      items := items + [Item(counter + i + 1, r, [])];
      MoreGrowth(RelationshipLogs(all), i);
      memory := memory + RelationshipCost(r);
    }
    assert all[..|xs|] == all && RelationshipLogs(all)[..|xs|] == RelationshipLogs(all);
    return true, items, memory;
  }

  lemma IdsAreNew(t: RelationshipTable, counter: nat, xs: seq<RelationshipInput>, now: int, n: nat)
    requires IdsBelow(t.rows, counter) && n < |xs|
    ensures var all := RelationshipItems(counter, xs, now);
      all[n].id != 0 && all[n].id !in t.rows && NewKey(IdAt(all), n)
  {
  }

  /** What the indexes and the sets say about the next row. */
  lemma RelationshipChecked(t: RelationshipTable, c: Contents, items: seq<Item<Relationship>>, n: nat,
                            seenExtID: set<string>, seenIdentity: set<RelKey>)
    requires RelationshipsOk(t) && c.relationships == t.rows && n < |items|
    requires Saw(seenExtID, n, KeyAt(items, RelationshipExt)) && Saw(seenIdentity, n, KeyAt(items, RelationshipKey))
    ensures var r := items[n].row;
      var key := RelKey(r.sourceID, r.targetID, r.kind);
      RelationshipNext(c, items, n) <==>
        && items[n].id != 0 && items[n].id !in t.rows && NewKey(IdAt(items), n)
        && r.sourceID in c.entities && r.targetID in c.entities
        && key !in t.bySourceTarget && key !in seenIdentity
        && (r.extID != "" ==> r.extID !in t.byExtID && r.extID !in seenExtID)
  {
    hide RelationshipsOk, Saw, InUse;
    var r := items[n].row;
    RelationshipKeysAt(items, n);
    RelationshipLookup(t, r.extID, RelKey(r.sourceID, r.targetID, r.kind));
    IsNew(seenExtID, n, KeyAt(items, RelationshipExt));
    IsNew(seenIdentity, n, KeyAt(items, RelationshipKey));
  }

  /** The check made of logged rows. */
  method CheckRelationshipItems(t: RelationshipTable, entities: map<Id, Entity>, items: seq<Item<Relationship>>,
                                ghost c: Contents) returns (ok: bool)
    requires RelationshipsOk(t) && c.relationships == t.rows && c.entities == entities
    ensures ok <==> RelationshipsFree(c, items, |items|)
  {
    hide RelationshipsOk, RelationshipNext, Saw, InUse, NewKey;
    var seenID: set<Id> := {};
    var seenExtID: set<string> := {};
    var seenIdentity: set<RelKey> := {};
    SawNone(IdAt(items));
    SawNone(KeyAt(items, RelationshipExt));
    SawNone(KeyAt(items, RelationshipKey));
    for i := 0 to |items|
      invariant RelationshipsFree(c, items, i)
      invariant Saw(seenID, i, IdAt(items))
      invariant Saw(seenExtID, i, KeyAt(items, RelationshipExt)) && Saw(seenIdentity, i, KeyAt(items, RelationshipKey))
    {
      var p := items[i];
      var key := RelKey(p.row.sourceID, p.row.targetID, p.row.kind);
      RelationshipKeysAt(items, i);
      SeenIsNew(seenID, i, IdAt(items));
      RelationshipChecked(t, c, items, i, seenExtID, seenIdentity);
      if p.id == 0 || p.id in seenID || p.row.sourceID !in entities || p.row.targetID !in entities || p.id in t.rows
        || key in seenIdentity || key in t.bySourceTarget {
        return false;
      }
      if p.row.extID != "" && (p.row.extID in seenExtID || p.row.extID in t.byExtID) {
        return false;
      }
      SeesNext(seenID, i, IdAt(items));
      SeesNext(seenExtID, i, KeyAt(items, RelationshipExt));
      SeesNext(seenIdentity, i, KeyAt(items, RelationshipKey));
      if p.row.extID != "" {
        seenExtID := seenExtID + {p.row.extID};
      }
      seenID, seenIdentity := seenID + {p.id}, seenIdentity + {key};
    }
    return true;
  }

  lemma SeenIsNew<K>(seen: set<K>, n: nat, key: nat -> Option<K>)
    requires Saw(seen, n, key) && key(n).Some?
    ensures key(n).value !in seen <==> NewKey(key, n)
  {
    hide Saw;
    IsNew(seen, n, key);
  }

  /** A row that passed the check is still free after those before it are in. */
  lemma RelationshipStillFree(cfg: Config, c: Contents, items: seq<Item<Relationship>>, n: nat, d: Contents)
    requires n < |items| && RelationshipsFree(c, items, |items|)
    requires ApplyAll(cfg, c, RelationshipLogs(items)[..n]) == Some(d)
    ensures var r := items[n].row;
      && items[n].id !in d.relationships
      && !InUse(d.relationships, RelationshipKey, RelKey(r.sourceID, r.targetID, r.kind))
      && (r.extID != "" ==> !InUse(d.relationships, RelationshipExt, r.extID))
    ensures ApplyAll(cfg, c, RelationshipLogs(items)[..n + 1]) == Some(PutRelationship(d, items[n].id, items[n].row))
  {
    hide InUse, RelationshipNext;
    var ps := RelationshipLogs(items);
    RelationshipNextIsNext(cfg, c, items, n);
    AppliesAfterAll(cfg, c, ps[..n], ps[n]);
    assert ps[..n + 1][..n] == ps[..n];
  }

  method InsertRelationships(cfg: Config, t: RelationshipTable, items: seq<Item<Relationship>>, ghost c: Contents)
      returns (u: RelationshipTable)
    requires RelationshipsOk(t) && c.relationships == t.rows && RelationshipsFree(c, items, |items|)
    ensures RelationshipsOk(u) && ApplyAll(cfg, c, RelationshipLogs(items)).Some?
    ensures u.rows == ApplyAll(cfg, c, RelationshipLogs(items)).value.relationships
  {
    hide RelationshipsOk, RelationshipsFree, InUse, ApplyAll;
    u := t;
    ghost var d := c;
    ApplyNone(cfg, c, RelationshipLogs(items));
    for i := 0 to |items|
      invariant RelationshipsOk(u) && ApplyAll(cfg, c, RelationshipLogs(items)[..i]) == Some(d)
      invariant u.rows == d.relationships
    {
      var p := items[i];
      RelationshipStillFree(cfg, c, items, i, d);
      RelationshipLookup(u, p.row.extID, RelKey(p.row.sourceID, p.row.targetID, p.row.kind));
      u := InsertRelationship(u, p.id, p.row);
      d := PutRelationship(d, p.id, p.row);
    }
    assert RelationshipLogs(items)[..|items|] == RelationshipLogs(items);
  }

  lemma {:induction false} RelationshipsElsewhere(cfg: Config, c: Contents, items: seq<Item<Relationship>>)
    requires ApplyAll(cfg, c, RelationshipLogs(items)).Some?
    ensures var d := ApplyAll(cfg, c, RelationshipLogs(items)).value;
      d == c.(relationships := d.relationships,
              counters := c.counters.(relationship := Max(c.counters.relationship, LargestId(items))))
    decreases |items|
  {
    if items != [] {
      var n := |items| - 1;
      assert RelationshipLogs(items)[..n] == RelationshipLogs(items[..n]);
      RelationshipsElsewhere(cfg, c, items[..n]);
    }
  }
}
