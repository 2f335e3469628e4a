/**
 Community replacement is logged before it is checked: what follows when the check fails, and
 a session the store can reach in which it does. Updating a description is not counted: a store
 that is over its quota without knowing.
 */
module SessionFindings {

  import opened Wrappers
  import opened StoreContents
  import opened StoreWrites
  import opened StoreRuns
  import opened Sessions
  import opened DurableProtocol
  import DurableLog
  import DurableInvariant
  import DurableSteps
  import DurableSafety
  import DurableRuns
  import DurableFindings
  import opened SessionStores

  /**
   A replacement is refused exactly when ids, members or embeddings are not in order, or the
   memory it adds, over what the old communities take, does not fit the positive quota.
   */
  lemma ReplacementRefusedExactly(cfg: Config, c: Contents, items: seq<Item<Community>>)
    requires WellFormed(cfg, c)
    ensures var growth := CommunitiesCost(items) - CommunityMemory(c.communities, c.communityVecs);
      ReplaceCommunities(cfg, c, items).None? <==>
        || !Separate(items) || !StoreRuns.AllFit(cfg, c, items)
        || (growth > 0 && cfg.quotas.maxMemoryBytes > 0
            && UsageOf(c).memory + growth > cfg.quotas.maxMemoryBytes)
  {
    hide WellFormed, UsageOf, CommunityFits, Separate, CommunityMemory, CommunitiesCost;
    if Separate(items) && StoreRuns.AllFit(cfg, c, items) {
      ReplaceUsage(cfg, c, items, PutCommunities(WithoutCommunities(c), items), CommunitiesCost(items));
    }
  }

  /**
   In any run of the engine: logging a replacement that the session would refuse means, once
   the record is flushed, that no start ever succeeds again.
   */
  lemma RefusedReplacementPoisons(cfg: Config, maxSessions: nat, fits: WalRecord -> bool, everyWrite: bool, s: Store,
                                  sessionID: string, items: seq<Item<Community>>,
                                  keep: nat, torn: bool, flushed: nat, revert: bool, shown: nat,
                                  later: seq<EngineStep>)
    requires DurableInvariant.Inv(Engine(cfg, maxSessions, fits), everyWrite, s) && s.disk.prior.None?
    requires Enabled(Engine(cfg, maxSessions, fits), everyWrite, s, Action.Write(WalRecord(sessionID, ReplaceOp(items))))
    requires ReplaceCommunities(cfg, SessionOf(s.proc.value.state, sessionID), items).None?
    requires var sys := Engine(cfg, maxSessions, fits);
      var t := Do(sys, everyWrite, Do(sys, everyWrite, s, Action.Write(WalRecord(sessionID, ReplaceOp(items)))), Sync);
      && Enabled(sys, everyWrite, t, Crash(keep, torn, flushed, revert, shown))
      && Run(sys, everyWrite, CrashStep(t, keep, torn, flushed, revert, shown), later).Some?
    ensures var sys := Engine(cfg, maxSessions, fits);
      var t := Do(sys, everyWrite, Do(sys, everyWrite, s, Action.Write(WalRecord(sessionID, ReplaceOp(items)))), Sync);
      Recover(sys, Run(sys, everyWrite, CrashStep(t, keep, torn, flushed, revert, shown), later).value.disk).None?
  {
    hide DurableInvariant.Inv, Do, Run, Recover, CrashStep, ReplaceCommunities;
    DurableRuns.RefusedRecordPoisons(Engine(cfg, maxSessions, fits), everyWrite, s,
                                     WalRecord(sessionID, ReplaceOp(items)), keep, torn, flushed, revert, shown, later);
  }

  // ---------------------------------------------------------------- a session at its memory quota

  /** Room for one small entity and no more. */
  function Tight(): Config {
    Config(id => id == "", title => title, 3, Quotas(0, 0, 0, 194))
  }

  function Little(): EntityInput {
    EntityInput("e", "E", "", "", [])
  }

  function OneEntity(): Contents {
    Empty().(entities := map[1 := NewEntity(Tight(), Little(), 0)], counters := Counters(0, 0, 1, 0, 0))
  }

  /** The community that clustering makes of that entity. */
  function Alone(): seq<Item<Community>> {
    [Item(1, Community("", "", Level(0), [1], [], "", "", 0), [])]
  }

  predicate AnyLength(r: WalRecord) {
    true
  }

  ghost function TightEngine(): DurableLog.System<SessionMap, WalRecord> {
    Engine(Tight(), 1, AnyLength)
  }

  function Filling(): WalRecord {
    WalRecord("s", Put(EntityLog(Item(1, NewEntity(Tight(), Little(), 0), []))))
  }

  function Replacing(): WalRecord {
    WalRecord("s", ReplaceOp(Alone()))
  }

  lemma OneEntityIsPrepared()
    ensures Prepare(Tight(), Empty(), EntityIn(Little()), 0)
         == Some(EntityLog(Item(1, NewEntity(Tight(), Little(), 0), [])))
  {
    EmptyIsWellFormed(Tight());
    hide UsageOf;
    assert EntityCost(NewEntity(Tight(), Little(), 0), []) == 194;
    assert EntityValid(Tight(), Empty(), Little());
  }

  lemma OneEntityApplies()
    ensures StoreContents.ApplyEntity(Tight(), Empty(), Filling().op.p.entity) == Some(OneEntity())
  {
    hide UsageOf;
    assert OneEntity() == PutEntity(Empty(), 1, NewEntity(Tight(), Little(), 0), []);
  }

  lemma OneEntityFillsIt()
    ensures WellFormed(Tight(), Empty()) && WellFormed(Tight(), OneEntity())
    ensures UsageOf(OneEntity()) == Usage(1, 0, 0, 194)
  {
    EmptyIsWellFormed(Tight());
    OneEntityApplies();
    assert GrowthOf(Filling().op.p) == Growth(1, 0, 0, 194);
    hide UsageOf, WellFormed, ApplyEntity, OneEntity;
    ApplyKeeps(Tight(), Empty(), Filling().op.p);
  }

  lemma AloneIsRefused()
    ensures ReplaceCommunities(Tight(), OneEntity(), Alone()).None?
  {
    OneEntityFillsIt();
    ReplacementRefusedExactly(Tight(), OneEntity(), Alone());
    assert Alone()[..0] == [] && CommunitiesCost([]) == 0;
    assert CommunitiesCost(Alone()) == 200;
  }

  function Limited(): SessionMap {
    map["s" := OneEntity()]
  }

  lemma FillingApplies()
    ensures PrepareOp(Tight(), Empty(), WriteOne(EntityIn(Little())), 0) == Some(Filling().op)
    ensures TightEngine().init == map[] && TightEngine().apply(map[], Filling()) == Some(Limited())
  {
    hide ApplyEntity, WellFormed, UsageOf, Prepare;
    OneEntityIsPrepared();
    OneEntityApplies();
  }

  /** The state once the entity is acknowledged. */
  function Filled(): Store {
    State(Disk(File(1, [DurableLog.Rec(Filling()), DurableLog.NL], false, 2), None, false, [], 0),
          Some(Proc(1, true, Limited(), false, Unmarked, Idle)),
          Trace([Filling()], 0, [], 1, 0, [Filling()]))
  }

  lemma FillingUp() returns (run: seq<EngineStep>)
    ensures DurableSafety.Leads(TightEngine(), true, run, Filled())
  {
    FillingApplies();
    hide TightEngine, Filling, Limited, Engine, ApplyRecord;
    var sys := TightEngine();
    var s: Store;
    run, s := [], Fresh();
    run, s := DurableFindings.Then(sys, run, s, Start);
    run, s := DurableFindings.Then(sys, run, s, Action.Write(Filling()));
    run, s := DurableFindings.Then(sys, run, s, Sync);
    assert s.disk.log.tokens == Filled().disk.log.tokens;
    run, s := DurableFindings.Then(sys, run, s, Apply);
    assert s == Filled();
  }

  /** The state once the replacement is logged and on disk. */
  ghost function Doomed(): Store {
    Do(TightEngine(), true, Do(TightEngine(), true, Filled(), Action.Write(Replacing())), Sync)
  }

  lemma ReplacingIsRefused()
    requires DurableInvariant.Inv(TightEngine(), true, Filled())
    ensures Enabled(TightEngine(), true, Doomed(), Crash(4, false, 4, false, 0))
    ensures Recover(TightEngine(), CrashStep(Doomed(), 4, false, 4, false, 0).disk).None?
  {
    AloneIsRefused();
    hide DurableInvariant.Inv, Recover, ReplaceCommunities, OneEntity, Filling, Tight, Alone;
    RefusedReplacementPoisons(Tight(), 1, AnyLength, true, Filled(), "s", Alone(), 4, false, 4, false, 0, []);
  }

  /**
   One entity is prepared, logged, acknowledged and fills the quota; replacing the communities
   is then logged, and would be refused. Whatever happens next, recovery refuses too: the
   acknowledged entity cannot be had again.
   */
  lemma LoggedThenRefused() returns (run: seq<EngineStep>)
    ensures DurableSafety.Leads(TightEngine(), true, run, Doomed())
    ensures Doomed().trace.history == [Filling(), Replacing()] && Doomed().trace.acked == 1
    ensures ReplaceCommunities(Tight(), OneEntity(), Alone()).None?
    ensures Enabled(TightEngine(), true, Doomed(), Crash(4, false, 4, false, 0))
    ensures Recover(TightEngine(), CrashStep(Doomed(), 4, false, 4, false, 0).disk).None?
  {
    var sys := TightEngine();
    run := FillingUp();
    DurableSteps.FreshHolds(sys, true);
    DurableSteps.RunKeeps(sys, true, Fresh(), run);
    AloneIsRefused();
    hide DurableInvariant.Inv, Recover, ReplaceCommunities, OneEntity, Tight, Engine, Filling, Replacing, Run;
    ReplacingIsRefused();
    var s := Filled();
    run, s := DurableFindings.Then(sys, run, s, Action.Write(Replacing()));
    run, s := DurableFindings.Then(sys, run, s, Sync);
  }

  // ---------------------------------------------------------------- an update that is not counted

  /** A new store at its memory quota: one more byte of description, and its counter is wrong. */
  method UpdatedPastQuota() returns (s: SessionStore)
    ensures fresh(s) && s.cfg == Tight() && !s.Valid()
    ensures s.usage.memory == Tight().quotas.maxMemoryBytes
    ensures UsageOf(s.Contents()).memory == Tight().quotas.maxMemoryBytes + 1
  {
    hide WellFormed, UsageOf, SessionStore.TablesOk;
    s := new SessionStore(Tight());
    OneEntityIsAdded();
    var id := s.AddEntity(Little(), 0);
    ghost var c := s.Contents();
    assert c == OneEntity() && 1 in s.entities.rows;
    OneEntityFillsIt();
    var ok := s.UpdateEntityDescription(1, "x", []);
    SessionStore.UpdateUsage(c, 1, s.Contents().entities[1], c.entityVecs, s.Contents());
  }

  lemma OneEntityIsAdded()
    ensures StoreContents.AddEntity(Tight(), Empty(), Little(), 0) == Some(OneEntity())
  {
    hide UsageOf, WellFormed;
    OneEntityIsPrepared();
    OneEntityApplies();
    EmptyIsWellFormed(Tight());
    TwoPhaseIsDirect(Tight(), Empty(), EntityIn(Little()), 0);
  }
}
