/**
 The engine's sessions as the system the durable log replays: what is logged for an operation,
 and why it always applies again.
 */
module Sessions {

  import opened Collections
  import opened Wrappers
  import opened Tables
  import opened StoreContents
  import opened StoreInvariant
  import opened StoreWrites
  import opened StoreRuns
  import DurableLog
  import DurableProtocol
  import DurableInvariant
  import DurableSteps
  import DurableSafety

  datatype Op =
    | Put(p: Logged)
    | PutBatch(ps: seq<Logged>)
    | ReplaceOp(items: seq<Item<Community>>)
    | DeleteDocumentOp(id: Id)
    | DeleteTextUnitOp(id: Id)
    | DeleteEntityOp(id: Id)
    | DeleteRelationshipOp(id: Id)

  datatype WalRecord = WalRecord(sessionID: string, op: Op)

  type SessionMap = map<string, Contents>

  function SessionOf(s: SessionMap, id: string): Contents {
    if id in s then s[id] else Empty()
  }

  ghost function ApplyOp(cfg: Config, c: Contents, op: Op): Option<Contents> {
    match op
    case Put(p) => Apply(cfg, c, p)
    case PutBatch(ps) => ApplyAll(cfg, c, ps)
    case ReplaceOp(items) => ReplaceCommunities(cfg, c, items)
    case DeleteDocumentOp(id) => DeleteDocument(c, id)
    case DeleteTextUnitOp(id) => DeleteTextUnit(c, id)
    case DeleteEntityOp(id) => DeleteEntity(c, id)
    case DeleteRelationshipOp(id) => DeleteRelationship(c, id)
  }

  /** A record names a session, made on the first write if there is room for one more. */
  ghost function ApplyRecord(cfg: Config, maxSessions: nat, s: SessionMap, r: WalRecord): Option<SessionMap> {
    if r.sessionID == "" || (r.sessionID !in s && |s| >= maxSessions) then None
    else
      match ApplyOp(cfg, SessionOf(s, r.sessionID), r.op)
      case None => None
      case Some(c) => Some(s[r.sessionID := c])
  }

  /** `fits` tells the records whose line is short enough to be read back. */
  ghost function Engine(cfg: Config, maxSessions: nat, fits: WalRecord -> bool): DurableLog.System<SessionMap, WalRecord> {
    DurableLog.System(map[], (s: SessionMap, r: WalRecord) => ApplyRecord(cfg, maxSessions, s, r), fits)
  }

  // ---------------------------------------------------------------- what is logged

  datatype Request =
    | WriteOne(x: Input)
    | WriteBatch(xs: seq<Input>)
    | RemoveDocument(id: Id)
    | RemoveTextUnit(id: Id)
    | RemoveEntity(id: Id)
    | RemoveRelationship(id: Id)

  /** The operation is checked, and its record made, before anything is written. */
  ghost function PrepareOp(cfg: Config, c: Contents, q: Request, now: int): Option<Op> {
    match q
    case WriteOne(x) => (match Prepare(cfg, c, x, now) case None => None case Some(p) => Some(Put(p)))
    case WriteBatch(xs) =>
      if OneKindIn(xs) then
        match PrepareBatch(cfg, c, xs, now) case None => None case Some(ps) => Some(PutBatch(ps))
      else None
    case RemoveDocument(id) => if DeleteDocument(c, id).Some? then Some(DeleteDocumentOp(id)) else None
    case RemoveTextUnit(id) => if DeleteTextUnit(c, id).Some? then Some(DeleteTextUnitOp(id)) else None
    case RemoveEntity(id) => if DeleteEntity(c, id).Some? then Some(DeleteEntityOp(id)) else None
    case RemoveRelationship(id) => if DeleteRelationship(c, id).Some? then Some(DeleteRelationshipOp(id)) else None
  }

  /** The same operation without a log. */
  ghost function DirectOp(cfg: Config, c: Contents, q: Request, now: int): Option<Contents> {
    match q
    case WriteOne(x) => Add(cfg, c, x, now)
    case WriteBatch(xs) => if OneKindIn(xs) then AddAll(cfg, c, xs, now) else None
    case RemoveDocument(id) => DeleteDocument(c, id)
    case RemoveTextUnit(id) => DeleteTextUnit(c, id)
    case RemoveEntity(id) => DeleteEntity(c, id)
    case RemoveRelationship(id) => DeleteRelationship(c, id)
  }

  /** Rows in the log are as prepared ones are: linked to nothing. */
  ghost predicate Plain(op: Op) {
    match op
    case Put(p) => Unlinked(p)
    case PutBatch(ps) => AllUnlinked(ps)
    case _ => true
  }

  /**
   A prepared operation always applies, in the contents it was prepared in, and gives exactly
   what the operation gives without a log; it is refused exactly when that fails.
   */
  lemma PreparedApplies(cfg: Config, c: Contents, q: Request, now: int)
    requires WellFormed(cfg, c)
    ensures PrepareOp(cfg, c, q, now).Some? <==> DirectOp(cfg, c, q, now).Some?
    ensures PrepareOp(cfg, c, q, now).Some? ==>
      Plain(PrepareOp(cfg, c, q, now).value)
      && ApplyOp(cfg, c, PrepareOp(cfg, c, q, now).value) == DirectOp(cfg, c, q, now)
  {
    hide UsageOf, InUse, KeysOk, ReferencesOk, VecsOk, CountersOk, Add, AddAll, ApplyAll, Apply, PrepareBatch, Prepare;
    match q
    case WriteOne(x) => PreparedOne(cfg, c, x, now);
    case WriteBatch(xs) =>
      if OneKindIn(xs) {
        PreparedMany(cfg, c, xs, now);
      }
    case _ =>
  }

  lemma PreparedOne(cfg: Config, c: Contents, x: Input, now: int)
    requires WellFormed(cfg, c)
    ensures Prepare(cfg, c, x, now).Some? <==> Add(cfg, c, x, now).Some?
    ensures Prepare(cfg, c, x, now).Some? ==>
      var p := Prepare(cfg, c, x, now).value; Unlinked(p) && Apply(cfg, c, p) == Add(cfg, c, x, now)
  {
    hide UsageOf, KeysOk, ReferencesOk, VecsOk, Add, Apply, Prepare;
    TwoPhaseIsDirect(cfg, c, x, now);
  }

  lemma PreparedMany(cfg: Config, c: Contents, xs: seq<Input>, now: int)
    requires WellFormed(cfg, c) && OneKindIn(xs)
    ensures PrepareBatch(cfg, c, xs, now).Some? <==> AddAll(cfg, c, xs, now).Some?
    ensures PrepareBatch(cfg, c, xs, now).Some? ==>
      var ps := PrepareBatch(cfg, c, xs, now).value;
      AllUnlinked(ps) && ApplyAll(cfg, c, ps) == AddAll(cfg, c, xs, now)
  {
    hide UsageOf, WellFormed, AddAll, ApplyAll, Batchable, InputsOk, TotalGrowth;
    BulkIsIteration(cfg, c, xs, now);
  }

  // ---------------------------------------------------------------- the sessions stay well-formed

  ghost predicate AllWellFormed(cfg: Config, s: SessionMap) {
    forall id :: id in s ==> WellFormed(cfg, s[id])
  }

  lemma ApplyOpKeeps(cfg: Config, c: Contents, op: Op)
    requires WellFormed(cfg, c) && Plain(op) && ApplyOp(cfg, c, op).Some?
    ensures WellFormed(cfg, ApplyOp(cfg, c, op).value)
  {
    hide WellFormed, UsageOf, Apply, ApplyAll, PutCommunities, Separate, CommunityFits;
    match op
    case Put(p) => ApplyKeeps(cfg, c, p);
    case PutBatch(ps) => ApplyAllKeeps(cfg, c, ps);
    case ReplaceOp(items) =>
      ReplaceKeeps(cfg, c, items);
    case DeleteDocumentOp(id) => DeleteDocumentKeeps(cfg, c, id);
    case DeleteTextUnitOp(id) => DeleteTextUnitKeeps(cfg, c, id);
    case DeleteEntityOp(id) => DeleteEntityKeeps(cfg, c, id);
    case DeleteRelationshipOp(id) => DeleteRelationshipKeeps(cfg, c, id);
  }

  lemma RecordKeeps(cfg: Config, maxSessions: nat, s: SessionMap, r: WalRecord)
    requires AllWellFormed(cfg, s) && Plain(r.op) && ApplyRecord(cfg, maxSessions, s, r).Some?
    ensures AllWellFormed(cfg, ApplyRecord(cfg, maxSessions, s, r).value)
  {
    hide WellFormed, ApplyOp, UsageOf;
    EmptyIsWellFormed(cfg);
    ApplyOpKeeps(cfg, SessionOf(s, r.sessionID), r.op);
  }

  /** Whatever log of such records is replayed, every session it gives is well-formed. */
  lemma {:induction false} ReplayedIsWellFormed(cfg: Config, maxSessions: nat, fits: WalRecord -> bool,
                                                        history: seq<WalRecord>)
    requires forall i :: 0 <= i < |history| ==> Plain(history[i].op)
    requires DurableLog.After(Engine(cfg, maxSessions, fits), history).Some?
    ensures AllWellFormed(cfg, DurableLog.After(Engine(cfg, maxSessions, fits), history).value)
    decreases |history|
  {
    hide ApplyRecord, WellFormed, Plain;
    if history != [] {
      var n := |history| - 1;
      ReplayedIsWellFormed(cfg, maxSessions, fits, history[..n]);
      RecordKeeps(cfg, maxSessions, DurableLog.After(Engine(cfg, maxSessions, fits), history[..n]).value, history[n]);
    }
  }

  // ---------------------------------------------------------------- what each session holds

  /** The operations of the records that name a session, in order. */
  function OpsOf(history: seq<WalRecord>, sessionID: string): seq<Op> {
    if history == [] then []
    else
      var n := |history| - 1;
      OpsOf(history[..n], sessionID) + if history[n].sessionID == sessionID then [history[n].op] else []
  }

  function Named(history: seq<WalRecord>): set<string> {
    set r | r in history :: r.sessionID
  }

  /** Operations on one session alone, one after the other. */
  ghost function FoldOps(cfg: Config, c: Contents, ops: seq<Op>): Option<Contents> {
    if ops == [] then Some(c)
    else
      match FoldOps(cfg, c, ops[..|ops| - 1])
      case None => None
      case Some(d) => ApplyOp(cfg, d, ops[|ops| - 1])
  }

  /** What the operations of the records naming a session make of nothing. */
  ghost function Held(cfg: Config, history: seq<WalRecord>, sessionID: string): Option<Contents> {
    FoldOps(cfg, Empty(), OpsOf(history, sessionID))
  }

  /** Exactly the sessions named are there, each as its own operations made it from nothing. */
  ghost predicate HoldsWhatWasLogged(cfg: Config, history: seq<WalRecord>, s: SessionMap) {
    && s.Keys == Named(history)
    && forall id :: id in s ==> Held(cfg, history, id) == Some(s[id])
  }

  /** A history that applies: sessions have names, there is room for them, and each one's own operations apply. */
  ghost predicate EachApplies(cfg: Config, maxSessions: nat, history: seq<WalRecord>) {
    && "" !in Named(history) && |Named(history)| <= maxSessions
    && forall id :: id in Named(history) ==> Held(cfg, history, id).Some?
  }

  /**
   Replaying a history is doing each session's operations on that session alone: it succeeds
   exactly when they all do and there is room, and then every session holds its own and no
   session is missing or left over.
   */
  lemma {:induction false} ReplayIsPerSession(cfg: Config, maxSessions: nat, fits: WalRecord -> bool,
                                                      history: seq<WalRecord>)
    ensures DurableLog.After(Engine(cfg, maxSessions, fits), history).Some? <==> EachApplies(cfg, maxSessions, history)
    ensures DurableLog.After(Engine(cfg, maxSessions, fits), history).Some? ==>
      HoldsWhatWasLogged(cfg, history, DurableLog.After(Engine(cfg, maxSessions, fits), history).value)
    decreases |history|
  {
    if history == [] {
      assert Named(history) == {};
    } else {
      var n := |history| - 1;
      var init, r := history[..n], history[n];
      ReplayIsPerSession(cfg, maxSessions, fits, init);
      NamedGrows(history);
      if EachApplies(cfg, maxSessions, init) {
        OneMoreRecord(cfg, maxSessions, history, DurableLog.After(Engine(cfg, maxSessions, fits), init).value);
      } else {
        StillFails(cfg, maxSessions, history);
      }
    }
  }

  lemma NamedGrows(history: seq<WalRecord>)
    requires history != []
    ensures Named(history) == Named(history[..|history| - 1]) + {history[|history| - 1].sessionID}
  {
    var n := |history| - 1;
    assert history == history[..n] + [history[n]];
  }

  lemma {:induction false} NotNamedNoOps(history: seq<WalRecord>, id: string)
    requires id !in Named(history)
    ensures OpsOf(history, id) == []
    decreases |history|
  {
    if history != [] {
      NamedGrows(history);
      NotNamedNoOps(history[..|history| - 1], id);
    }
  }

  /** The record's session is folded one further; the others are as they were. */
  lemma OneMoreFold(cfg: Config, history: seq<WalRecord>, id: string)
    requires history != []
    ensures var n := |history| - 1;
      Held(cfg, history, id) ==
        if history[n].sessionID != id then Held(cfg, history[..n], id)
        else
          match Held(cfg, history[..n], id)
          case None => None
          case Some(c) => ApplyOp(cfg, c, history[n].op)
  {
    hide ApplyOp;
    var n := |history| - 1;
    var ops := OpsOf(history[..n], id);
    assert (ops + [history[n].op])[..|ops|] == ops;
    assert ops + [] == ops;
  }

  lemma OneMoreRecord(cfg: Config, maxSessions: nat, history: seq<WalRecord>, s: SessionMap)
    requires history != [] && HoldsWhatWasLogged(cfg, history[..|history| - 1], s)
    requires EachApplies(cfg, maxSessions, history[..|history| - 1])
    requires Named(history) == Named(history[..|history| - 1]) + {history[|history| - 1].sessionID}
    ensures var t := ApplyRecord(cfg, maxSessions, s, history[|history| - 1]);
      && (t.Some? <==> EachApplies(cfg, maxSessions, history))
      && (t.Some? ==> HoldsWhatWasLogged(cfg, history, t.value))
  {
    hide ApplyOp, Held, Named;
    var n := |history| - 1;
    var r := history[n];
    assert |s| == |s.Keys|;
    assert r.sessionID !in s ==> |Named(history)| == |s| + 1;
    SessionSoFar(cfg, history[..n], s, r.sessionID);
    forall id ensures Held(cfg, history, id) ==
                        if id == r.sessionID then ApplyOp(cfg, SessionOf(s, id), r.op)
                        else Held(cfg, history[..n], id) {
      OneMoreFold(cfg, history, id);
    }
  }

  lemma SessionSoFar(cfg: Config, history: seq<WalRecord>, s: SessionMap, id: string)
    requires HoldsWhatWasLogged(cfg, history, s)
    ensures Held(cfg, history, id) == Some(SessionOf(s, id))
  {
    if id !in s {
      NotNamedNoOps(history, id);
    }
  }

  lemma StillFails(cfg: Config, maxSessions: nat, history: seq<WalRecord>)
    requires history != [] && !EachApplies(cfg, maxSessions, history[..|history| - 1])
    requires Named(history) == Named(history[..|history| - 1]) + {history[|history| - 1].sessionID}
    ensures !EachApplies(cfg, maxSessions, history)
  {
    hide ApplyOp, Held;
    var before := Named(history[..|history| - 1]);
    KeysCount(before, Named(history));
    forall id | id in before ensures Held(cfg, history, id).Some? ==>
                                     Held(cfg, history[..|history| - 1], id).Some? {
      OneMoreFold(cfg, history, id);
    }
  }

  // ---------------------------------------------------------------- whole runs of the engine

  type Store = DurableProtocol.State<SessionMap, WalRecord>
  type EngineStep = DurableProtocol.Action<WalRecord>

  /** The record of an operation prepared, at some time, in the sessions it is logged in. */
  ghost predicate PreparedIn(cfg: Config, maxSessions: nat, s: SessionMap, r: WalRecord) {
    && r.sessionID != "" && (r.sessionID in s || |s| < maxSessions)
    && exists q: Request, now: int :: PrepareOp(cfg, SessionOf(s, r.sessionID), q, now) == Some(r.op)
  }

  lemma PreparedRecordApplies(cfg: Config, maxSessions: nat, s: SessionMap, r: WalRecord)
    requires AllWellFormed(cfg, s) && PreparedIn(cfg, maxSessions, s, r)
    ensures Plain(r.op) && ApplyRecord(cfg, maxSessions, s, r).Some?
  {
    hide WellFormed, PrepareOp, ApplyOp, DirectOp, UsageOf;
    EmptyIsWellFormed(cfg);
    var c := SessionOf(s, r.sessionID);
    var q: Request, now: int :| PrepareOp(cfg, c, q, now) == Some(r.op);
    PreparedApplies(cfg, c, q, now);
  }

  /** Every start finds the log at a line end; what is written was prepared in the state it is written in. */
  ghost predicate PreparedStep(cfg: Config, maxSessions: nat, s: Store, a: EngineStep) {
    match a
    case Start => DurableLog.EndsLine(s.disk.log.tokens)
    case Write(r) => s.proc.Some? && PreparedIn(cfg, maxSessions, s.proc.value.state, r)
    case WriteFails(r, _, _) => s.proc.Some? && PreparedIn(cfg, maxSessions, s.proc.value.state, r)
    case _ => true
  }

  ghost predicate PreparedRun(cfg: Config, maxSessions: nat, fits: WalRecord -> bool, everyWrite: bool, s: Store,
                              run: seq<EngineStep>)
    requires DurableProtocol.Run(Engine(cfg, maxSessions, fits), everyWrite, s, run).Some?
    decreases |run|
  {
    run != [] ==>
      && PreparedStep(cfg, maxSessions, s, run[0])
      && PreparedRun(cfg, maxSessions, fits, everyWrite,
                     DurableProtocol.Do(Engine(cfg, maxSessions, fits), everyWrite, s, run[0]), run[1..])
  }

  ghost predicate AllPlain(history: seq<WalRecord>) {
    forall i :: 0 <= i < |history| ==> Plain(history[i].op)
  }

  /** While no mutation has failed, the sessions in memory are well-formed. */
  lemma LiveIsWellFormed(cfg: Config, maxSessions: nat, fits: WalRecord -> bool, everyWrite: bool, s: Store)
    requires DurableInvariant.Inv(Engine(cfg, maxSessions, fits), everyWrite, s) && AllPlain(s.trace.history)
    requires s.proc.Some? && !s.proc.value.failed
    ensures AllWellFormed(cfg, s.proc.value.state)
  {
    hide DurableInvariant.DiskOk, DurableInvariant.PhaseOk, DurableInvariant.DoneOk, DurableInvariant.AckOk;
    hide ApplyRecord, WellFormed, Plain;
    var h := s.trace.history;
    ReplayedIsWellFormed(cfg, maxSessions, fits, if s.proc.value.phase.Written? then h[..|h| - 1] else h);
  }

  lemma PreparedStepIsCareful(cfg: Config, maxSessions: nat, fits: WalRecord -> bool, everyWrite: bool, s: Store, a: EngineStep)
    requires DurableInvariant.Inv(Engine(cfg, maxSessions, fits), everyWrite, s) && AllPlain(s.trace.history)
    requires DurableProtocol.Enabled(Engine(cfg, maxSessions, fits), everyWrite, s, a)
    requires PreparedStep(cfg, maxSessions, s, a)
    ensures DurableSafety.CarefulStep(Engine(cfg, maxSessions, fits), s, a)
    ensures AllPlain(DurableProtocol.Do(Engine(cfg, maxSessions, fits), everyWrite, s, a).trace.history)
  {
    hide DurableInvariant.Inv, PreparedIn, ApplyRecord, Plain, AllWellFormed, DurableProtocol.Recover;
    if a.Write? || a.WriteFails? {
      LiveIsWellFormed(cfg, maxSessions, fits, everyWrite, s);
      PreparedRecordApplies(cfg, maxSessions, s.proc.value.state, a.record);
    }
  }

  lemma {:induction false} PreparedRunIsCareful(cfg: Config, maxSessions: nat, fits: WalRecord -> bool, everyWrite: bool,
                                                s: Store, run: seq<EngineStep>)
    requires DurableInvariant.Inv(Engine(cfg, maxSessions, fits), everyWrite, s) && AllPlain(s.trace.history)
    requires DurableProtocol.Run(Engine(cfg, maxSessions, fits), everyWrite, s, run).Some?
    requires PreparedRun(cfg, maxSessions, fits, everyWrite, s, run)
    ensures var t := DurableProtocol.Run(Engine(cfg, maxSessions, fits), everyWrite, s, run).value;
      && DurableInvariant.Inv(Engine(cfg, maxSessions, fits), everyWrite, t) && AllPlain(t.trace.history)
      && DurableSafety.Careful(Engine(cfg, maxSessions, fits), everyWrite, s, run)
    decreases |run|
  {
    hide DurableInvariant.Inv, PreparedStep, AllPlain, DurableProtocol.Do, DurableProtocol.Enabled;
    hide DurableSafety.CarefulStep, Engine;
    if run != [] {
      var sys := Engine(cfg, maxSessions, fits);
      DurableSteps.StepKeeps(sys, everyWrite, s, run[0]);
      PreparedStepIsCareful(cfg, maxSessions, fits, everyWrite, s, run[0]);
      PreparedRunIsCareful(cfg, maxSessions, fits, everyWrite, DurableProtocol.Do(sys, everyWrite, s, run[0]), run[1..]);
    }
  }

  /**
   Over any run of the engine, crashes and restarts included, in which every record logged was
   prepared in the sessions it was logged in and every start found the log at a line end: while
   no mutation has failed the sessions in memory are well-formed; recovery refuses exactly a
   torn record or one too long to be read back; and what it gives is well-formed, and holds
   for every session named in the surviving history, and no other, what its own operations made.
   */
  lemma PreparedRunsAreSafe(cfg: Config, maxSessions: nat, fits: WalRecord -> bool, everyWrite: bool, run: seq<EngineStep>,
                            s: Store)
    requires DurableSafety.Leads(Engine(cfg, maxSessions, fits), everyWrite, run, s)
    requires PreparedRun(cfg, maxSessions, fits, everyWrite, DurableProtocol.Fresh(), run)
    ensures DurableInvariant.Inv(Engine(cfg, maxSessions, fits), everyWrite, s)
    ensures s.proc.Some? && !s.proc.value.failed ==> AllWellFormed(cfg, s.proc.value.state)
    ensures DurableProtocol.Ready(s) ==> HoldsWhatWasLogged(cfg, s.trace.history, s.proc.value.state)
    ensures s.proc.None? ==>
      var sys := Engine(cfg, maxSessions, fits);
      var recovered := DurableProtocol.Recover(sys, s.disk);
      && (recovered.None? <==>
            || s.disk.log.torn
            || !DurableLog.AllFit(fits, s.disk.log.tokens[DurableSteps.Offset(sys, everyWrite, s)..]))
      && (recovered.Some? ==>
            AllWellFormed(cfg, recovered.value) && HoldsWhatWasLogged(cfg, s.trace.history, recovered.value))
  {
    hide AllWellFormed, Plain, ApplyRecord, HoldsWhatWasLogged, EachApplies;
    var sys := Engine(cfg, maxSessions, fits);
    DurableSteps.FreshHolds(sys, everyWrite);
    PreparedRunIsCareful(cfg, maxSessions, fits, everyWrite, DurableProtocol.Fresh(), run);
    ReplayIsPerSession(cfg, maxSessions, fits, s.trace.history);
    if DurableProtocol.Ready(s) {
      DurableSafety.AtMostOneUnacknowledged(sys, everyWrite, run, s);
    }
    hide DurableInvariant.Inv, DurableProtocol.Recover;
    if s.proc.Some? {
      if !s.proc.value.failed {
        LiveIsWellFormed(cfg, maxSessions, fits, everyWrite, s);
      }
    } else {
      DurableSafety.CarefulRefusesExactly(sys, everyWrite, run, s);
      if DurableProtocol.Recover(sys, s.disk).Some? {
        DurableSteps.RecoveryIsHistory(sys, everyWrite, s);
        ReplayedIsWellFormed(cfg, maxSessions, fits, s.trace.history);
      }
    }
  }

  // ---------------------------------------------------------------- sessions that hold nothing

  /** The engine has the sessions of the log, and perhaps some that hold nothing. */
  ghost predicate SameButForEmpty(live: SessionMap, s: SessionMap) {
    s.Keys <= live.Keys && forall id :: SessionOf(live, id) == SessionOf(s, id)
  }

  /**
   A write makes its session even if it is then refused, and that is not logged; it does not
   matter: what applies to the engine's sessions applies to the log's, with the same effect.
   */
  lemma EmptySessionsDoNotMatter(cfg: Config, maxSessions: nat, live: SessionMap, s: SessionMap, r: WalRecord)
    requires SameButForEmpty(live, s) && |live| <= maxSessions && ApplyRecord(cfg, maxSessions, live, r).Some?
    ensures |ApplyRecord(cfg, maxSessions, live, r).value| <= maxSessions
    ensures ApplyRecord(cfg, maxSessions, s, r).Some?
    ensures SameButForEmpty(ApplyRecord(cfg, maxSessions, live, r).value, ApplyRecord(cfg, maxSessions, s, r).value)
  {
    hide ApplyOp;
    assert |s| <= |live| && (r.sessionID !in s && r.sessionID in live ==> |s| < |live|) by {
      KeysCount(s.Keys, live.Keys);
    }
    var c := ApplyOp(cfg, SessionOf(live, r.sessionID), r.op).value;
    var live', s' := live[r.sessionID := c], s[r.sessionID := c];
    forall id ensures SessionOf(live', id) == SessionOf(s', id) {
      assert SessionOf(live, id) == SessionOf(s, id);
    }
  }

  lemma KeysCount(a: set<string>, b: set<string>)
    requires a <= b
    ensures |a| <= |b| && (a != b ==> |a| < |b|)
  {
    assert b == a + (b - a);
  }
}
