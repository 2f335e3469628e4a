/**
 What a write leaves in the store, row by row: the input's own fields under the id returned,
 its embedding, and every other row and embedding as before.
 */
module StoreRows {

  import opened Collections
  import opened Tables
  import opened Wrappers
  import opened StoreContents
  import opened StoreInvariant
  import opened StoreWrites
  import opened StoreRuns

  /** The id the next row of the input's kind gets. */
  function NextID(c: Contents, x: Input): Id {
    match x
    case DocumentIn(_) => c.counters.document + 1
    case TextUnitIn(_) => c.counters.textUnit + 1
    case EntityIn(_) => c.counters.entity + 1
    case RelationshipIn(_) => c.counters.relationship + 1
  }

  ghost predicate VecIs(vecs: map<Id, Vec>, id: Id, vec: Vec) {
    (id in vecs <==> vec != []) && (vec != [] ==> vecs[id] == vec)
  }

  /** The row under the id has the fields of the input, and no links yet. */
  ghost predicate RowIs(cfg: Config, d: Contents, x: Input, id: Id, now: int) {
    match x
    case DocumentIn(y) =>
      && id in d.documents
      && var r := d.documents[id]; r.extID == y.extID && r.filename == y.filename && r.createdAt == now
    case TextUnitIn(y) =>
      && id in d.textUnits && VecIs(d.textUnitVecs, id, y.embedding)
      && var r := d.textUnits[id];
         && r.extID == y.extID && r.documentID == y.documentID && r.content == y.content
         && r.tokenCount == y.tokenCount && r.createdAt == now && r.entityIDs == []
    case EntityIn(y) =>
      && id in d.entities && VecIs(d.entityVecs, id, y.embedding)
      && var r := d.entities[id];
         && r.extID == y.extID && r.title == cfg.normal(y.title) && r.kind == y.kind
         && r.description == y.description && r.createdAt == now && r.textUnitIDs == []
    case RelationshipIn(y) =>
      && id in d.relationships
      && var r := d.relationships[id];
         && r.extID == y.extID && r.sourceID == y.sourceID && r.targetID == y.targetID && r.kind == y.kind
         && r.description == y.description && r.createdAt == now
         && (if IsZero(y.weight) then r.weight == ONE else r.weight == y.weight)
  }

  /** The table has one row more; the others are as they were. */
  ghost predicate OneMoreRow<V>(before: map<Id, V>, after: map<Id, V>, id: Id) {
    && id !in before && after.Keys == before.Keys + {id}
    && forall i: Id :: i in before ==> after[i] == before[i]
  }

  ghost predicate SameVecsBut(before: map<Id, Vec>, after: map<Id, Vec>, id: Id) {
    forall i: Id :: i != id ==> (i in after <==> i in before) && (i in before ==> after[i] == before[i])
  }

  /** Nothing else changes: not the other rows of the table, not the other tables. */
  ghost predicate NothingElse(c: Contents, d: Contents, x: Input, id: Id) {
    && d.communities == c.communities && d.communityVecs == c.communityVecs
    && (if x.DocumentIn? then OneMoreRow(c.documents, d.documents, id) else d.documents == c.documents)
    && (if x.TextUnitIn? then OneMoreRow(c.textUnits, d.textUnits, id) && SameVecsBut(c.textUnitVecs, d.textUnitVecs, id)
        else d.textUnits == c.textUnits && d.textUnitVecs == c.textUnitVecs)
    && (if x.EntityIn? then OneMoreRow(c.entities, d.entities, id) && SameVecsBut(c.entityVecs, d.entityVecs, id)
        else d.entities == c.entities && d.entityVecs == c.entityVecs)
    && (if x.RelationshipIn? then OneMoreRow(c.relationships, d.relationships, id)
        else d.relationships == c.relationships)
  }

  ghost predicate Stored(cfg: Config, c: Contents, d: Contents, x: Input, id: Id, now: int) {
    RowIs(cfg, d, x, id, now) && NothingElse(c, d, x, id)
  }

  /** A row prepared at any time, in any contents, is stored as prepared wherever it later applies. */
  lemma PreparedStores(cfg: Config, c: Contents, x: Input, now: int, later: Contents)
    requires Prepare(cfg, c, x, now).Some? && VecsNamed(later)
    requires Apply(cfg, later, Prepare(cfg, c, x, now).value).Some?
    ensures Stored(cfg, later, Apply(cfg, later, Prepare(cfg, c, x, now).value).value, x, NextID(c, x), now)
  {
    PreparedRow(cfg, c, x, now, later);
    PreparedAlone(cfg, c, x, now, later);
  }

  lemma PreparedRow(cfg: Config, c: Contents, x: Input, now: int, later: Contents)
    requires Prepare(cfg, c, x, now).Some? && VecsNamed(later)
    requires Apply(cfg, later, Prepare(cfg, c, x, now).value).Some?
    ensures RowIs(cfg, Apply(cfg, later, Prepare(cfg, c, x, now).value).value, x, NextID(c, x), now)
  {
    hide UsageOf, InUse, Admits, EmbeddingOk, EntityCost, TextUnitCost, DocumentCost, RelationshipCost;
    match x
    case DocumentIn(_) =>
    case TextUnitIn(_) =>
    case EntityIn(_) =>
    case RelationshipIn(_) =>
  }

  lemma PreparedAlone(cfg: Config, c: Contents, x: Input, now: int, later: Contents)
    requires Prepare(cfg, c, x, now).Some?
    requires Apply(cfg, later, Prepare(cfg, c, x, now).value).Some?
    ensures NothingElse(later, Apply(cfg, later, Prepare(cfg, c, x, now).value).value, x, NextID(c, x))
  {
    hide UsageOf, InUse, Admits, EmbeddingOk, EntityCost, TextUnitCost, DocumentCost, RelationshipCost;
    match x
    case DocumentIn(_) =>
    case TextUnitIn(_) =>
    case EntityIn(_) =>
    case RelationshipIn(_) =>
  }

  /** A direct write stores its input under the id it returns. */
  lemma AddStores(cfg: Config, c: Contents, x: Input, now: int)
    requires WellFormed(cfg, c) && Add(cfg, c, x, now).Some?
    ensures Stored(cfg, c, Add(cfg, c, x, now).value, x, NextID(c, x), now)
    ensures NextID(Add(cfg, c, x, now).value, x) == NextID(c, x) + 1
  {
    hide UsageOf, KeysOk, ReferencesOk, Stored, InUse;
    TwoPhaseIsDirect(cfg, c, x, now);
    VecsAreNamed(cfg, c);
    PreparedStores(cfg, c, x, now, c);
    CounterMoves(cfg, c, x, now);
  }

  lemma CounterMoves(cfg: Config, c: Contents, x: Input, now: int)
    requires Add(cfg, c, x, now).Some?
    ensures NextID(Add(cfg, c, x, now).value, x) == NextID(c, x) + 1
  {
    hide UsageOf, InUse, Admits, EmbeddingOk;
  }

  // ---------------------------------------------------------------- batches

  /** Every input of the batch has its row, under consecutive ids. */
  ghost predicate AllRowsAre(cfg: Config, d: Contents, xs: seq<Input>, first: Id, now: int) {
    forall i :: 0 <= i < |xs| ==> RowIs(cfg, d, xs[i], first + i, now)
  }

  /** What was there is there unchanged, and there is nothing new but `n` rows from `first` on. */
  ghost predicate TableKept<V>(before: map<Id, V>, after: map<Id, V>, first: Id, n: nat) {
    && (forall i: Id :: i in before ==> i in after && after[i] == before[i])
    && (forall i: Id :: i in after && i !in before ==> first <= i < first + n)
  }

  ghost predicate AllKept(c: Contents, d: Contents, first: Id, n: nat) {
    && TableKept(c.documents, d.documents, first, n) && TableKept(c.textUnits, d.textUnits, first, n)
    && TableKept(c.entities, d.entities, first, n) && TableKept(c.relationships, d.relationships, first, n)
    && TableKept(c.textUnitVecs, d.textUnitVecs, first, n) && TableKept(c.entityVecs, d.entityVecs, first, n)
    && d.communities == c.communities && d.communityVecs == c.communityVecs
  }

  /** A row stays as it is when another is stored. */
  lemma RowStays(cfg: Config, c: Contents, d: Contents, x: Input, id: Id, y: Input, other: Id, now: int)
    requires RowIs(cfg, c, x, id, now) && NothingElse(c, d, y, other) && id != other
    ensures RowIs(cfg, d, x, id, now)
  {
  }

  lemma RowsStillKept<V>(before: map<Id, V>, mid: map<Id, V>, after: map<Id, V>, first: Id, n: nat)
    requires TableKept(before, mid, first, n) && (after == mid || OneMoreRow(mid, after, first + n))
    ensures TableKept(before, after, first, n + 1)
  {
  }

  lemma VecsStillKept(before: map<Id, Vec>, mid: map<Id, Vec>, after: map<Id, Vec>, first: Id, n: nat)
    requires TableKept(before, mid, first, n) && SameVecsBut(mid, after, first + n) && first + n !in mid
    ensures TableKept(before, after, first, n + 1)
  {
  }

  lemma StillKept(cfg: Config, c: Contents, d: Contents, e: Contents, first: Id, n: nat, x: Input)
    requires VecsNamed(d) && AllKept(c, d, first, n) && NothingElse(d, e, x, first + n)
    ensures AllKept(c, e, first, n + 1)
  {
    assert x.TextUnitIn? ==> first + n !in d.textUnitVecs;
    assert x.EntityIn? ==> first + n !in d.entityVecs;
    hide VecsNamed, TableKept, OneMoreRow, SameVecsBut;
    RowsStillKept(c.documents, d.documents, e.documents, first, n);
    RowsStillKept(c.textUnits, d.textUnits, e.textUnits, first, n);
    RowsStillKept(c.entities, d.entities, e.entities, first, n);
    RowsStillKept(c.relationships, d.relationships, e.relationships, first, n);
    if x.TextUnitIn? {
      VecsStillKept(c.textUnitVecs, d.textUnitVecs, e.textUnitVecs, first, n);
    } else {
      RowsStillKept(c.textUnitVecs, d.textUnitVecs, e.textUnitVecs, first, n);
    }
    if x.EntityIn? {
      VecsStillKept(c.entityVecs, d.entityVecs, e.entityVecs, first, n);
    } else {
      RowsStillKept(c.entityVecs, d.entityVecs, e.entityVecs, first, n);
    }
  }

  /** A bulk write stores every input under consecutive ids and leaves everything else alone. */
  lemma {:induction false} BulkStores(cfg: Config, c: Contents, xs: seq<Input>, now: int)
    requires WellFormed(cfg, c) && OneKindIn(xs) && MSet(cfg, c, xs, now).Some? && xs != []
    ensures AllRowsAre(cfg, MSet(cfg, c, xs, now).value, xs, NextID(c, xs[0]), now)
    ensures AllKept(c, MSet(cfg, c, xs, now).value, NextID(c, xs[0]), |xs|)
  {
    hide MSet, WellFormed, AllRowsAre, AllKept;
    BulkIsIteration(cfg, c, xs, now);
    IterationStores(cfg, c, xs, now, xs[0]);
  }

  lemma {:induction false} IterationStores(cfg: Config, c: Contents, xs: seq<Input>, now: int, kind: Input)
    requires WellFormed(cfg, c) && AddAll(cfg, c, xs, now).Some?
    requires forall i :: 0 <= i < |xs| ==> SameKindIn(xs[i], kind)
    ensures var d := AddAll(cfg, c, xs, now).value;
      && WellFormed(cfg, d) && NextID(d, kind) == NextID(c, kind) + |xs|
      && AllRowsAre(cfg, d, xs, NextID(c, kind), now) && AllKept(c, d, NextID(c, kind), |xs|)
    decreases |xs|
  {
    hide WellFormed, Add, RowIs, NothingElse, UsageOf;
    if xs != [] {
      var n := |xs| - 1;
      var first := NextID(c, kind);
      IterationStores(cfg, c, xs[..n], now, kind);
      var d := AddAll(cfg, c, xs[..n], now).value;
      var e := AddAll(cfg, c, xs, now).value;
      AddStores(cfg, d, xs[n], now);
      AddKeeps(cfg, d, xs[n], now);
      assert NextID(d, xs[n]) == first + n && NextID(e, kind) == first + n + 1;
      forall i | 0 <= i < |xs| ensures RowIs(cfg, e, xs[i], first + i, now) {
        if i < n {
          assert RowIs(cfg, d, xs[..n][i], first + i, now);
          RowStays(cfg, d, e, xs[i], first + i, xs[n], first + n, now);
        }
      }
      VecsAreNamed(cfg, d);
      StillKept(cfg, c, d, e, first, n, xs[n]);
    }
  }

  // ---------------------------------------------------------------- communities

  /** A community is stored as it is given, with its embedding, beside the others. */
  lemma CommunityStored(cfg: Config, c: Contents, m: Community, vec: Vec)
    requires WellFormed(cfg, c) && AddCommunity(cfg, c, m, vec).Some?
    ensures var d, id := AddCommunity(cfg, c, m, vec).value, c.counters.community + 1;
      && OneMoreRow(c.communities, d.communities, id) && d.communities[id] == m
      && SameVecsBut(c.communityVecs, d.communityVecs, id) && VecIs(d.communityVecs, id, vec)
      && d == c.(communities := d.communities, communityVecs := d.communityVecs, counters := d.counters)
  {
    hide UsageOf, KeysOk, ReferencesOk, InUse, Admits;
  }

  /** The community has its item's row and embedding. */
  ghost predicate ItemIs(d: Contents, p: Item<Community>) {
    p.id in d.communities && d.communities[p.id] == p.row && VecIs(d.communityVecs, p.id, p.vec)
  }

  ghost predicate IsItem(items: seq<Item<Community>>, m: Id) {
    exists i :: 0 <= i < |items| && items[i].id == m
  }

  /** A replacement leaves exactly the given communities, each under its id, and touches nothing else. */
  lemma ReplacementStored(cfg: Config, c: Contents, items: seq<Item<Community>>)
    requires ReplaceCommunities(cfg, c, items).Some?
    ensures var d := ReplaceCommunities(cfg, c, items).value;
      && (forall m: Id :: m in d.communities <==> IsItem(items, m))
      && (forall i :: 0 <= i < |items| ==> ItemIs(d, items[i]))
      && d == c.(communities := d.communities, communityVecs := d.communityVecs, counters := d.counters)
  {
    hide UsageOf, CommunityFits, Admits;
    ItemsNamed(WithoutCommunities(c), items);
    ItemsStored(WithoutCommunities(c), items);
  }

  lemma {:induction false} ItemsNamed(c: Contents, items: seq<Item<Community>>)
    requires c.communities == map[] && c.communityVecs == map[]
    ensures var d := PutCommunities(c, items);
      && (forall m: Id :: m in d.communities <==> IsItem(items, m))
      && (forall m: Id :: m in d.communityVecs ==> m in d.communities)
      && d == c.(communities := d.communities, communityVecs := d.communityVecs, counters := d.counters)
    decreases |items|
  {
    if items != [] {
      var n := |items| - 1;
      ItemsNamed(c, items[..n]);
      forall m: Id ensures IsItem(items, m) <==> IsItem(items[..n], m) || m == items[n].id {
        if IsItem(items[..n], m) {
          var i :| 0 <= i < n && items[..n][i].id == m;
          assert items[i].id == m;
        }
        if IsItem(items, m) {
          var i :| 0 <= i < |items| && items[i].id == m;
          assert i == n || items[..n][i].id == m;
        }
      }
      hide IsItem;
    }
  }

  lemma {:induction false} ItemsStored(c: Contents, items: seq<Item<Community>>)
    requires c.communities == map[] && c.communityVecs == map[] && Separate(items)
    ensures forall i :: 0 <= i < |items| ==> ItemIs(PutCommunities(c, items), items[i])
    decreases |items|
  {
    if items != [] {
      var n := |items| - 1;
      ItemsStored(c, items[..n]);
      ItemsNamed(c, items[..n]);
      var d, p := PutCommunities(c, items[..n]), items[n];
      assert !IsItem(items[..n], p.id);
      assert p.id !in d.communities && p.id !in d.communityVecs;
      assert PutCommunities(c, items) == PutCommunity(d, p.id, p.row, p.vec);
      hide IsItem, PutCommunities, PutCommunity, ItemIs;
      forall i | 0 <= i < |items| ensures ItemIs(PutCommunity(d, p.id, p.row, p.vec), items[i]) {
        if i < n {
          assert items[..n][i] == items[i];
        }
        ItemPut(d, p, items[i]);
      }
    }
  }

  lemma ItemPut(d: Contents, p: Item<Community>, q: Item<Community>)
    requires p.id !in d.communityVecs && (q == p || (q.id != p.id && ItemIs(d, q)))
    ensures ItemIs(PutCommunity(d, p.id, p.row, p.vec), q)
  {
  }

  // ---------------------------------------------------------------- memory estimates

  /** The estimate of a row with every field empty. */
  lemma BaseEstimates(at: int)
    ensures DocumentCost(Document("", "", at)) == 128
    ensures forall i: Id, n: int :: TextUnitCost(TextUnit("", i, "", [], n, at), []) == 160
    ensures EntityCost(Entity("", "", "", "", [], at), []) == 192
    ensures forall i: Id, j: Id, w: Float32 :: RelationshipCost(Relationship("", i, j, "", "", w, at)) == 160
    ensures forall l: Level :: CommunityCost(Community("", "", l, [], [], "", "", at), []) == 192
  {
  }

  /** A byte more in any text adds one; nothing else in a document or a relationship counts. */
  lemma TextEstimates(d: Document, r: Relationship, t: string)
    ensures DocumentCost(d.(extID := d.extID + t)) == DocumentCost(d.(filename := d.filename + t)) == DocumentCost(d) + |t|
    ensures RelationshipCost(r.(extID := r.extID + t)) == RelationshipCost(r.(kind := r.kind + t))
              == RelationshipCost(r.(description := r.description + t)) == RelationshipCost(r) + |t|
    ensures forall i: Id, j: Id, w: Float32 :: RelationshipCost(r.(sourceID := i, targetID := j, weight := w)) == RelationshipCost(r)
  {
  }

  /** An entry more in an embedding adds four; links of text units and entities are free. */
  lemma EmbeddedEstimates(u: TextUnit, e: Entity, vec: Vec, more: Vec, t: string, links: seq<Id>)
    ensures TextUnitCost(u, vec + more) == TextUnitCost(u, vec) + 4 * |more|
    ensures TextUnitCost(u.(extID := u.extID + t), vec) == TextUnitCost(u.(content := u.content + t), vec) == TextUnitCost(u, vec) + |t|
    ensures EntityCost(e, vec + more) == EntityCost(e, vec) + 4 * |more|
    ensures EntityCost(e.(extID := e.extID + t), vec) == EntityCost(e.(title := e.title + t), vec)
              == EntityCost(e.(kind := e.kind + t), vec) == EntityCost(e.(description := e.description + t), vec)
              == EntityCost(e, vec) + |t|
    ensures TextUnitCost(u.(entityIDs := links), vec) == TextUnitCost(u, vec) && EntityCost(e.(textUnitIDs := links), vec) == EntityCost(e, vec)
  {
  }

  /** A member more in a community adds eight. */
  lemma CommunityEstimates(c: Community, vec: Vec, more: Vec, t: string, members: seq<Id>)
    ensures CommunityCost(c, vec + more) == CommunityCost(c, vec) + 4 * |more|
    ensures CommunityCost(c.(entityIDs := c.entityIDs + members), vec)
              == CommunityCost(c.(relationshipIDs := c.relationshipIDs + members), vec) == CommunityCost(c, vec) + 8 * |members|
    ensures CommunityCost(c.(extID := c.extID + t), vec) == CommunityCost(c.(title := c.title + t), vec)
              == CommunityCost(c.(summary := c.summary + t), vec) == CommunityCost(c.(fullContent := c.fullContent + t), vec)
              == CommunityCost(c, vec) + |t|
  {
  }
}
