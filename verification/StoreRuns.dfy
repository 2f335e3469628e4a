/** Every store that any sequence of operations can reach is well-formed and within its quotas. */
module StoreRuns {

  import opened Collections
  import opened Tables
  import opened Wrappers
  import opened StoreContents
  import opened StoreInvariant
  import opened StoreWrites

  // ---------------------------------------------------------------- replacing the communities

  ghost predicate AllFit(cfg: Config, c: Contents, items: seq<Item<Community>>) {
    forall i :: 0 <= i < |items| ==> CommunityFits(cfg, c, items[i].row, items[i].vec)
  }

  ghost function CommunitiesCost(items: seq<Item<Community>>): nat {
    if items == [] then 0
    else
      var p := items[|items| - 1];
      CommunitiesCost(items[..|items| - 1]) + CommunityCost(p.row, p.vec)
  }

  /** The row is one of the items'. */
  ghost predicate FromItems(rows: map<Id, Community>, items: seq<Item<Community>>) {
    forall m: Id :: m in rows ==> exists i :: 0 <= i < |items| && items[i].id == m && items[i].row == rows[m]
  }

  lemma {:induction false} PutCommunitiesFrom(c: Contents, items: seq<Item<Community>>)
    requires |c.communities| == 0
    ensures FromItems(PutCommunities(c, items).communities, items)
    decreases |items|
  {
    if items != [] {
      var n := |items| - 1;
      PutCommunitiesFrom(c, items[..n]);
    }
  }

  /** Separate items do not meet a row already put. */
  lemma NextIsFree(c: Contents, items: seq<Item<Community>>)
    requires Separate(items) && items != [] && |c.communities| == 0
    ensures var n := |items| - 1;
      var d := PutCommunities(c, items[..n]);
      && items[n].id !in d.communities
      && (items[n].row.extID != "" ==> !InUse(d.communities, CommunityExt, items[n].row.extID))
  {
    var n := |items| - 1;
    PutCommunitiesFrom(c, items[..n]);
  }

  lemma {:induction false} PutCommunitiesOthers(c: Contents, items: seq<Item<Community>>)
    ensures var d := PutCommunities(c, items);
      d.entities == c.entities && d.relationships == c.relationships && d.documents == c.documents
      && d.textUnits == c.textUnits
    decreases |items|
  {
    if items != [] {
      PutCommunitiesOthers(c, items[..|items| - 1]);
    }
  }

  lemma {:induction false} PutCommunitiesKeeps(cfg: Config, c: Contents, items: seq<Item<Community>>)
    requires WellFormed(cfg, c) && |c.communities| == 0 && Separate(items) && AllFit(cfg, c, items)
    ensures WellFormed(cfg, PutCommunities(c, items))
    decreases |items|
  {
    if items != [] {
      var n := |items| - 1;
      PutCommunitiesKeeps(cfg, c, items[..n]);
      NextIsFree(c, items);
      PutCommunitiesOthers(c, items[..n]);
    }
  }

  lemma {:induction false} PutCommunitiesUsage(cfg: Config, c: Contents, items: seq<Item<Community>>)
    requires WellFormed(cfg, c) && |c.communities| == 0 && Separate(items) && AllFit(cfg, c, items)
    ensures UsageOf(PutCommunities(c, items)) == Plus(UsageOf(c), 0, 0, 0, CommunitiesCost(items))
    decreases |items|
  {
    if items != [] {
      hide WellFormed, UsageOf, PutCommunity, CommunityCost, InUse;
      var n := |items| - 1;
      assert AllFit(cfg, c, items[..n]);
      PutCommunitiesUsage(cfg, c, items[..n]);
      NextIsFree(c, items);
      NoVecOutside(cfg, c, items[..n], items[n].id);
      PutCommunityUsage(PutCommunities(c, items[..n]), items[n].id, items[n].row, items[n].vec);
    }
  }

  lemma NoVecOutside(cfg: Config, c: Contents, items: seq<Item<Community>>, id: Id)
    requires WellFormed(cfg, c) && |c.communities| == 0 && Separate(items) && AllFit(cfg, c, items)
    requires id !in PutCommunities(c, items).communities
    ensures id !in PutCommunities(c, items).communityVecs
  {
  }

  lemma WithoutCommunitiesUsage(c: Contents)
    ensures UsageOf(c) == Plus(UsageOf(WithoutCommunities(c)), 0, 0, 0, CommunityMemory(c.communities, c.communityVecs))
  {
  }

  lemma ReplaceKeeps(cfg: Config, c: Contents, items: seq<Item<Community>>)
    requires WellFormed(cfg, c) && Separate(items) && AllFit(cfg, c, items)
    ensures WellFormed(cfg, PutCommunities(WithoutCommunities(c), items))
  {
    PutCommunitiesKeeps(cfg, WithoutCommunities(c), items);
  }

  lemma NewCommunitiesUsage(cfg: Config, c: Contents, items: seq<Item<Community>>)
    requires WellFormed(cfg, c) && Separate(items) && AllFit(cfg, c, items)
    ensures UsageOf(PutCommunities(WithoutCommunities(c), items))
         == Plus(UsageOf(WithoutCommunities(c)), 0, 0, 0, CommunitiesCost(items))
  {
    PutCommunitiesUsage(cfg, WithoutCommunities(c), items);
  }

  /** The memory moves from the old communities' to the new ones'. */
  lemma ReplaceUsage(cfg: Config, c: Contents, items: seq<Item<Community>>, next: Contents, cost: nat)
    requires WellFormed(cfg, c) && Separate(items) && AllFit(cfg, c, items)
    requires next == PutCommunities(WithoutCommunities(c), items) && cost == CommunitiesCost(items)
    ensures UsageOf(next) == Plus(UsageOf(c), 0, 0, 0, cost - CommunityMemory(c.communities, c.communityVecs))
  {
    assert UsageOf(next) == Plus(UsageOf(WithoutCommunities(c)), 0, 0, 0, cost) by {
      NewCommunitiesUsage(cfg, c, items);
    }
  }

  // ---------------------------------------------------------------- every operation

  /** Each operation at its own time; a community's is in its row. */
  datatype Mutation =
    | Write(x: Input, now: int)
    | Bulk(xs: seq<Input>, now: int)
    | DropDocument(id: Id)
    | DropTextUnit(id: Id)
    | DropEntity(id: Id)
    | DropRelationship(id: Id)
    | LinkTo(textUnitID: Id, entityID: Id)
    | WriteCommunity(m: Community, vec: Vec)
    | DropCommunity(id: Id)
    | Replace(items: seq<Item<Community>>)
    | ClearCommunities

  ghost function Step(cfg: Config, c: Contents, m: Mutation): Option<Contents> {
    match m
    case Write(x, now) => Add(cfg, c, x, now)
    case Bulk(xs, now) => if OneKindIn(xs) then MSet(cfg, c, xs, now) else None
    case DropDocument(id) => DeleteDocument(c, id)
    case DropTextUnit(id) => DeleteTextUnit(c, id)
    case DropEntity(id) => DeleteEntity(c, id)
    case DropRelationship(id) => DeleteRelationship(c, id)
    case LinkTo(u, e) => Link(c, u, e)
    case WriteCommunity(m, vec) => AddCommunity(cfg, c, m, vec)
    case DropCommunity(id) => DeleteCommunity(c, id)
    case Replace(items) => ReplaceCommunities(cfg, c, items)
    case ClearCommunities => Some(WithoutCommunities(c))
  }

  lemma {:induction false} AddAllKeeps(cfg: Config, c: Contents, xs: seq<Input>, now: int)
    requires WellFormed(cfg, c) && AddAll(cfg, c, xs, now).Some?
    ensures WellFormed(cfg, AddAll(cfg, c, xs, now).value)
    ensures WithinQuotas(cfg.quotas, UsageOf(c)) ==> WithinQuotas(cfg.quotas, UsageOf(AddAll(cfg, c, xs, now).value))
    decreases |xs|
  {
    if xs != [] {
      AddAllKeeps(cfg, c, xs[..|xs| - 1], now);
      AddKeeps(cfg, AddAll(cfg, c, xs[..|xs| - 1], now).value, xs[|xs| - 1], now);
    }
  }

  lemma StepKeepsWellFormed(cfg: Config, c: Contents, m: Mutation)
    requires WellFormed(cfg, c) && Step(cfg, c, m).Some?
    ensures WellFormed(cfg, Step(cfg, c, m).value)
  {
    match m {
      case Write(x, now) => AddKeeps(cfg, c, x, now);
      case Bulk(xs, now) =>
        BulkIsIteration(cfg, c, xs, now);
        AddAllKeeps(cfg, c, xs, now);
      case DropDocument(id) => DeleteDocumentKeeps(cfg, c, id);
      case DropTextUnit(id) => DeleteTextUnitKeeps(cfg, c, id);
      case DropEntity(id) => DeleteEntityKeeps(cfg, c, id);
      case DropRelationship(id) => DeleteRelationshipKeeps(cfg, c, id);
      case LinkTo(u, e) => LinkKeeps(cfg, c, u, e);
      case WriteCommunity(m, vec) => AddCommunityKeeps(cfg, c, m, vec);
      case DropCommunity(id) => DeleteCommunityKeeps(cfg, c, id);
      case Replace(items) =>
        ReplaceKeeps(cfg, c, items);
      case ClearCommunities => WithoutCommunitiesKeeps(cfg, c);
    }
  }

  lemma AddCommunityKeeps(cfg: Config, c: Contents, m: Community, vec: Vec)
    requires WellFormed(cfg, c) && AddCommunity(cfg, c, m, vec).Some?
    ensures WellFormed(cfg, AddCommunity(cfg, c, m, vec).value)
    ensures UsageOf(AddCommunity(cfg, c, m, vec).value) == Plus(UsageOf(c), 0, 0, 0, CommunityCost(m, vec))
  {
    var id := c.counters.community + 1;
    PutCommunityKeeps(cfg, c, id, m, vec);
    PutCommunityUsage(c, id, m, vec);
  }

  lemma DropsKeepQuotas(cfg: Config, c: Contents, m: Mutation)
    requires WithinQuotas(cfg.quotas, UsageOf(c)) && Step(cfg, c, m).Some?
    requires m.DropDocument? || m.DropTextUnit? || m.DropEntity? || m.DropRelationship? || m.DropCommunity?
    ensures WithinQuotas(cfg.quotas, UsageOf(Step(cfg, c, m).value))
  {
    match m {
      case DropDocument(id) => DeleteDocumentUsage(c, id);
      case DropTextUnit(id) => DeleteTextUnitUsage(c, id);
      case DropEntity(id) => DeleteEntityUsage(c, id);
      case DropRelationship(id) => DeleteRelationshipUsage(c, id);
      case DropCommunity(id) => DeleteCommunityUsage(c, id);
    }
  }

  lemma CommunitiesKeepQuotas(cfg: Config, c: Contents, m: Mutation)
    requires WellFormed(cfg, c) && WithinQuotas(cfg.quotas, UsageOf(c)) && Step(cfg, c, m).Some?
    requires m.WriteCommunity? || m.Replace? || m.ClearCommunities?
    ensures WithinQuotas(cfg.quotas, UsageOf(Step(cfg, c, m).value))
  {
    hide WellFormed, UsageOf, CommunityFits, PutCommunities, Separate, InUse;
    match m {
      case WriteCommunity(m, vec) =>
        AddCommunityKeeps(cfg, c, m, vec);
        assert Admits(cfg.quotas, UsageOf(c), 0, 0, 0, CommunityCost(m, vec));
      case Replace(items) => ReplaceKeepsQuotas(cfg, c, items, Step(cfg, c, m).value);
      case ClearCommunities => WithoutCommunitiesUsage(c);
    }
  }

  /** The check on the growth alone keeps the memory quota. */
  lemma ReplaceKeepsQuotas(cfg: Config, c: Contents, items: seq<Item<Community>>, next: Contents)
    requires WellFormed(cfg, c) && WithinQuotas(cfg.quotas, UsageOf(c)) && ReplaceCommunities(cfg, c, items) == Some(next)
    ensures WithinQuotas(cfg.quotas, UsageOf(next))
  {
    var cost := CommunitiesCost(items);
    ReplaceUsage(cfg, c, items, next, cost);
  }

  lemma StepKeepsQuotas(cfg: Config, c: Contents, m: Mutation)
    requires WellFormed(cfg, c) && WithinQuotas(cfg.quotas, UsageOf(c)) && Step(cfg, c, m).Some?
    ensures WithinQuotas(cfg.quotas, UsageOf(Step(cfg, c, m).value))
  {
    if m.Write? {
      AddKeeps(cfg, c, m.x, m.now);
    } else if m.Bulk? {
      BulkIsIteration(cfg, c, m.xs, m.now);
      AddAllKeeps(cfg, c, m.xs, m.now);
    } else if m.LinkTo? {
      LinkUsage(c, m.textUnitID, m.entityID);
    } else if m.WriteCommunity? || m.Replace? || m.ClearCommunities? {
      CommunitiesKeepQuotas(cfg, c, m);
    } else {
      DropsKeepQuotas(cfg, c, m);
    }
  }

  /** An operation that fails changes nothing. */
  ghost function After(cfg: Config, c: Contents, ms: seq<Mutation>): Contents {
    if ms == [] then c
    else
      var d := After(cfg, c, ms[..|ms| - 1]);
      match Step(cfg, d, ms[|ms| - 1])
      case None => d
      case Some(e) => e
  }

  /**
   Whatever is done to a new store, its contents are well-formed: keys unique, references live,
   links symmetric, embeddings of the right size, counters ahead of every id; and no positive
   quota in force from the start is ever exceeded.
   */
  lemma {:induction false} ReachableIsWellFormed(cfg: Config, ms: seq<Mutation>)
    ensures WellFormed(cfg, After(cfg, Empty(), ms))
    ensures WithinQuotas(cfg.quotas, UsageOf(After(cfg, Empty(), ms)))
    decreases |ms|
  {
    if ms == [] {
      EmptyIsWellFormed(cfg);
    } else {
      ReachableIsWellFormed(cfg, ms[..|ms| - 1]);
      hide WellFormed, Step, UsageOf, WithinQuotas;
      var d := After(cfg, Empty(), ms[..|ms| - 1]);
      if Step(cfg, d, ms[|ms| - 1]).Some? {
        StepKeepsWellFormed(cfg, d, ms[|ms| - 1]);
        StepKeepsQuotas(cfg, d, ms[|ms| - 1]);
      }
    }
  }

  /** No entity goes without an external id, the empty one being blank. */
  ghost predicate AllNamed(rows: map<Id, Entity>) {
    forall i: Id :: i in rows ==> rows[i].extID != ""
  }

  lemma AddNamed(cfg: Config, c: Contents, x: Input, now: int)
    requires cfg.blank("") && AllNamed(c.entities) && Add(cfg, c, x, now).Some?
    ensures AllNamed(Add(cfg, c, x, now).value.entities)
  {
    hide UsageOf, InUse, EmbeddingOk, Admits;
  }

  lemma {:induction false} AddAllNamed(cfg: Config, c: Contents, xs: seq<Input>, now: int)
    requires cfg.blank("") && AllNamed(c.entities) && AddAll(cfg, c, xs, now).Some?
    ensures AllNamed(AddAll(cfg, c, xs, now).value.entities)
    decreases |xs|
  {
    hide Add, AllNamed;
    if xs != [] {
      AddAllNamed(cfg, c, xs[..|xs| - 1], now);
      AddNamed(cfg, AddAll(cfg, c, xs[..|xs| - 1], now).value, xs[|xs| - 1], now);
    }
  }

  lemma StepNamed(cfg: Config, c: Contents, m: Mutation)
    requires cfg.blank("") && WellFormed(cfg, c) && AllNamed(c.entities) && Step(cfg, c, m).Some?
    ensures AllNamed(Step(cfg, c, m).value.entities)
  {
    hide WellFormed, UsageOf, Add, MSet, AddAll, PutCommunities, InUse, CommunityFits;
    match m
    case Write(x, now) => AddNamed(cfg, c, x, now);
    case Bulk(xs, now) =>
      BulkIsIteration(cfg, c, xs, now);
      AddAllNamed(cfg, c, xs, now);
    case Replace(items) => PutCommunitiesOthers(WithoutCommunities(c), items);
    case _ =>
  }

  lemma {:induction false} ReachableIsNamed(cfg: Config, ms: seq<Mutation>)
    requires cfg.blank("")
    ensures AllNamed(After(cfg, Empty(), ms).entities)
    decreases |ms|
  {
    hide WellFormed, Step, UsageOf, WithinQuotas;
    if ms != [] {
      var n := |ms| - 1;
      ReachableIsNamed(cfg, ms[..n]);
      ReachableIsWellFormed(cfg, ms[..n]);
      var d := After(cfg, Empty(), ms[..n]);
      if Step(cfg, d, ms[n]).Some? {
        StepNamed(cfg, d, ms[n]);
      }
    }
  }

  lemma EmptyIsWellFormed(cfg: Config)
    ensures WellFormed(cfg, Empty()) && UsageOf(Empty()) == Usage(0, 0, 0, 0)
  {
  }

  // ---------------------------------------------------------------- ids are never reused

  datatype Kind = DocumentKind | TextUnitKind | EntityKind | RelationshipKind

  function CounterOf(c: Contents, k: Kind): nat {
    match k
    case DocumentKind => c.counters.document
    case TextUnitKind => c.counters.textUnit
    case EntityKind => c.counters.entity
    case RelationshipKind => c.counters.relationship
  }

  predicate Holds(c: Contents, k: Kind, id: Id) {
    match k
    case DocumentKind => id in c.documents
    case TextUnitKind => id in c.textUnits
    case EntityKind => id in c.entities
    case RelationshipKind => id in c.relationships
  }

  /** The id was given out and its row has been deleted. */
  predicate Retired(c: Contents, k: Kind, id: Id) {
    id <= CounterOf(c, k) && !Holds(c, k, id)
  }

  lemma AddKeepsRetired(cfg: Config, c: Contents, x: Input, now: int, k: Kind, id: Id)
    requires Retired(c, k, id) && Add(cfg, c, x, now).Some?
    ensures Retired(Add(cfg, c, x, now).value, k, id)
  {
    hide DocumentValid, TextUnitValid, EntityValid, RelationshipValid, UsageOf, Admits;
  }

  lemma {:induction false} AddAllKeepsRetired(cfg: Config, c: Contents, xs: seq<Input>, now: int, k: Kind, id: Id)
    requires Retired(c, k, id) && AddAll(cfg, c, xs, now).Some?
    ensures Retired(AddAll(cfg, c, xs, now).value, k, id)
    decreases |xs|
  {
    hide Add, Retired;
    if xs != [] {
      AddAllKeepsRetired(cfg, c, xs[..|xs| - 1], now, k, id);
      AddKeepsRetired(cfg, AddAll(cfg, c, xs[..|xs| - 1], now).value, xs[|xs| - 1], now, k, id);
    }
  }

  lemma {:induction false} PutCommunitiesKeepsRetired(c: Contents, items: seq<Item<Community>>, k: Kind, id: Id)
    requires Retired(c, k, id)
    ensures Retired(PutCommunities(c, items), k, id)
    decreases |items|
  {
    if items != [] {
      PutCommunitiesKeepsRetired(c, items[..|items| - 1], k, id);
    }
  }

  lemma StepKeepsRetired(cfg: Config, c: Contents, m: Mutation, k: Kind, id: Id)
    requires WellFormed(cfg, c) && Retired(c, k, id) && Step(cfg, c, m).Some?
    ensures Retired(Step(cfg, c, m).value, k, id)
  {
    hide WellFormed, UsageOf, Add, MSet, AddAll, PutCommunities, InUse, CommunityFits;
    match m
    case Write(x, now) => AddKeepsRetired(cfg, c, x, now, k, id);
    case Bulk(xs, now) =>
      BulkIsIteration(cfg, c, xs, now);
      AddAllKeepsRetired(cfg, c, xs, now, k, id);
    case Replace(items) => PutCommunitiesKeepsRetired(WithoutCommunities(c), items, k, id);
    case _ =>
  }

  /** Once a row is deleted, its id never names another, whatever is done later. */
  lemma {:induction false} IdsAreNotReused(cfg: Config, before: seq<Mutation>, later: seq<Mutation>, k: Kind, id: Id)
    requires Retired(After(cfg, Empty(), before), k, id)
    ensures !Holds(After(cfg, After(cfg, Empty(), before), later), k, id)
  {
    ReachableIsWellFormed(cfg, before);
    StaysRetired(cfg, After(cfg, Empty(), before), later, k, id);
  }

  lemma {:induction false} StaysRetired(cfg: Config, c: Contents, ms: seq<Mutation>, k: Kind, id: Id)
    requires WellFormed(cfg, c) && Retired(c, k, id)
    ensures WellFormed(cfg, After(cfg, c, ms)) && Retired(After(cfg, c, ms), k, id)
    decreases |ms|
  {
    hide WellFormed, Step, Retired;
    if ms != [] {
      var n := |ms| - 1;
      StaysRetired(cfg, c, ms[..n], k, id);
      var d := After(cfg, c, ms[..n]);
      if Step(cfg, d, ms[n]).Some? {
        StepKeepsWellFormed(cfg, d, ms[n]);
        StepKeepsRetired(cfg, d, ms[n], k, id);
      }
    }
  }
}
