/**
 The loops behind the operations on many rows: the checks with their sets of what has been
 seen, the insertions, and the rollback.
 */
module StoreBatches {

  import opened Collections
  import opened Tables
  import opened Wrappers
  import opened StoreContents
  import opened StoreWrites
  import opened StoreRuns
  import opened StoreTables

  // ---------------------------------------------------------------- what a loop has seen

  /** The set holds the keys of the first n, no more. */
  ghost predicate Saw<K>(seen: set<K>, n: nat, key: nat -> Option<K>) {
    && (forall j: nat :: j < n && key(j).Some? ==> key(j).value in seen)
    && (forall k :: k in seen ==> exists j: nat :: j < n && key(j) == Some(k))
  }

  lemma SeesNext<K>(seen: set<K>, n: nat, key: nat -> Option<K>)
    requires Saw(seen, n, key)
    ensures Saw(if key(n).Some? then seen + {key(n).value} else seen, n + 1, key)
  {
  }

  /** The n-th key is new exactly when it is not in the set. */
  lemma IsNew<K>(seen: set<K>, n: nat, key: nat -> Option<K>)
    requires Saw(seen, n, key)
    ensures key(n).Some? ==> (key(n).value !in seen <==> forall j: nat :: j < n ==> key(j) != key(n))
  {
  }

  // ---------------------------------------------------------------- replacing communities

  ghost function ItemId(items: seq<Item<Community>>): nat -> Option<Id> {
    (j: nat) => if j < |items| then Some(items[j].id) else None
  }

  ghost function ItemExt(items: seq<Item<Community>>): nat -> Option<string> {
    (j: nat) => if j < |items| then CommunityExt(items[j].row) else None
  }

  ghost predicate OneSeparate(items: seq<Item<Community>>, n: nat)
    requires n < |items|
  {
    && items[n].id != 0
    && (forall j: nat :: j < n ==> ItemId(items)(j) != ItemId(items)(n))
    && (items[n].row.extID != "" ==> forall j: nat :: j < n ==> ItemExt(items)(j) != ItemExt(items)(n))
  }

  lemma SeparateStep(items: seq<Item<Community>>, n: nat)
    requires n < |items| && Separate(items[..n])
    ensures Separate(items[..n + 1]) <==> OneSeparate(items, n)
  {
    var more := items[..n + 1];
    if OneSeparate(items, n) {
      forall i, j | 0 <= i < j < |more|
        ensures more[i].id != more[j].id && (more[i].row.extID != "" ==> more[i].row.extID != more[j].row.extID)
      {
        if j >= n {
          assert ItemId(items)(i) != ItemId(items)(n);
          assert items[n].row.extID != "" ==> ItemExt(items)(i) != ItemExt(items)(n);
        }
      }
    }
  }

  lemma SeparateUpTo(items: seq<Item<Community>>, n: nat)
    requires n <= |items| && Separate(items)
    ensures Separate(items[..n])
  {
  }

  method Fits(cfg: Config, entities: map<Id, Entity>, relationships: map<Id, Relationship>, p: Item<Community>,
              ghost c: Contents) returns (ok: bool)
    requires c.entities == entities && c.relationships == relationships
    ensures ok <==> CommunityFits(cfg, c, p.row, p.vec)
  {
    ok := AllInRows(p.row.entityIDs, entities);
    if ok {
      ok := AllInRows(p.row.relationshipIDs, relationships);
    }
    if ok {
      ok := ValidateOptionalEmbedding(cfg, p.vec);
    }
  }

  /** The check of a replacement, with its total estimate. */
  method CheckReplacement(cfg: Config, entities: map<Id, Entity>, relationships: map<Id, Relationship>,
                          items: seq<Item<Community>>, ghost c: Contents) returns (ok: bool, memory: nat)
    requires c.entities == entities && c.relationships == relationships
    ensures ok <==> Separate(items) && AllFit(cfg, c, items)
    ensures ok ==> memory == CommunitiesCost(items)
  {
    hide Separate, OneSeparate, CommunityFits, Saw;
    memory := 0;
    var seenID: set<Id> := {};
    var seenExt: set<string> := {};
    StartReplacement(items);
    for i := 0 to |items|
      invariant Separate(items[..i]) && AllFit(cfg, c, items[..i]) && memory == CommunitiesCost(items[..i])
      invariant Saw(seenID, i, ItemId(items)) && Saw(seenExt, i, ItemExt(items))
    {
      var p := items[i];
      NextItem(items, i, seenID, seenExt);
      if p.id == 0 || p.id in seenID || (p.row.extID != "" && p.row.extID in seenExt) {
        if Separate(items) {
          SeparateUpTo(items, i + 1);
        }
        return false, 0;
      }
      var fits := Fits(cfg, entities, relationships, p, c);
      if !fits {
        return false, 0;
      }
      SeesNext(seenID, i, ItemId(items));
      SeesNext(seenExt, i, ItemExt(items));
      seenID := seenID + {p.id};
      if p.row.extID != "" {
        seenExt := seenExt + {p.row.extID};
      }
      assert items[..i + 1][..i] == items[..i];
      memory := memory + CommunityCost(p.row, p.vec);
    }
    assert items[..|items|] == items;
    return true, memory;
  }

  lemma StartReplacement(items: seq<Item<Community>>)
    ensures Separate(items[..0]) && Saw({}, 0, ItemId(items)) && Saw({}, 0, ItemExt(items))
  {
  }

  /** What the sets say about the next item. */
  lemma NextItem(items: seq<Item<Community>>, i: nat, seenID: set<Id>, seenExt: set<string>)
    requires i < |items| && Separate(items[..i]) && Saw(seenID, i, ItemId(items)) && Saw(seenExt, i, ItemExt(items))
    ensures Separate(items[..i + 1]) <==>
      items[i].id != 0 && items[i].id !in seenID && (items[i].row.extID != "" ==> items[i].row.extID !in seenExt)
  {
    hide Separate, Saw;
    SeparateStep(items, i);
    IsNew(seenID, i, ItemId(items));
    IsNew(seenExt, i, ItemExt(items));
  }

  /** The new tables, built row by row. */
  method BuildCommunities(cfg: Config, items: seq<Item<Community>>, ghost base: Contents)
      returns (t: CommunityTable, counter: nat)
    requires |base.communities| == 0 && |base.communityVecs| == 0 && Separate(items)
    requires forall i :: 0 <= i < |items| ==> IndexTakes(cfg, items[i].vec)
    ensures CommunitiesOk(t)
    ensures t.rows == PutCommunities(base, items).communities && t.vecs == PutCommunities(base, items).communityVecs
    ensures counter == Largest(items)
  {
    hide CommunitiesOk, InUse;
    t, counter := CommunityTable(map[], map[], map[], map[], None), 0;
    EmptyCommunities(t);
    assert items[..0] == [];
    for i := 0 to |items|
      invariant CommunitiesOk(t) && counter == Largest(items[..i])
      invariant t.rows == PutCommunities(base, items[..i]).communities
      invariant t.vecs == PutCommunities(base, items[..i]).communityVecs
    {
      var p := items[i];
      ghost var upto := items[..i + 1];
      assert upto[..i] == items[..i];
      NextIsFree(base, upto);
      CommunityLookup(t, p.row.extID);
      var ok;
      t, ok := InsertCommunity(t, cfg.dim, p.id, p.row, p.vec);
      counter := Max(counter, p.id);
    }
    assert items[..|items|] == items;
  }

  function Largest(items: seq<Item<Community>>): nat {
    if items == [] then 0 else Max(Largest(items[..|items| - 1]), items[|items| - 1].id)
  }

  lemma EmptyCommunities(t: CommunityTable)
    requires t == CommunityTable(map[], map[], map[], map[], None)
    ensures CommunitiesOk(t)
  {
  }

  lemma {:induction false} PutCommunitiesCounters(base: Contents, items: seq<Item<Community>>)
    ensures PutCommunities(base, items).counters
         == base.counters.(community := Max(base.counters.community, Largest(items)))
    ensures PutCommunities(base, items).(communities := base.communities, communityVecs := base.communityVecs,
                                         counters := base.counters) == base
    decreases |items|
  {
    if items != [] {
      PutCommunitiesCounters(base, items[..|items| - 1]);
    }
  }
}
