/** What becomes of acknowledged records over whole runs, and the runs in which they are lost. */
module DurableRuns {

  import opened Wrappers
  import opened DurableLog
  import opened DurableProtocol
  import opened DurableInvariant
  import opened DurableSteps
  import opened DurableSafety

  // ---------------------------------------------------------------- writing to a file that has a name

  /** No record is written while the file it goes to has lost its name. */
  ghost predicate Named<S, R>(sys: System<S, R>, everyWrite: bool, s: State<S, R>, run: seq<Action<R>>)
    requires Run(sys, everyWrite, s, run).Some?
    decreases |run|
  {
    run != [] ==>
      && (run[0].Write? ==> s.disk.prior.None?)
      && Named(sys, everyWrite, Do(sys, everyWrite, s, run[0]), run[1..])
  }

  /** While the file written to has no name, every snapshot that may count covers what was acknowledged. */
  ghost predicate AcksCovered<S, R>(s: State<S, R>) {
    && (s.proc.Some? && s.proc.value.phase.Written? ==> s.disk.prior.None?)
    && (s.disk.prior.Some? ==>
          forall i :: 0 <= i < |s.trace.covers| && s.disk.durable - 1 <= i ==> s.trace.acked <= s.trace.covers[i])
  }

  lemma AcksStayCovered<S, R>(sys: System<S, R>, s: State<S, R>, a: Action<R>)
    requires Inv(sys, true, s) && AcksCovered(s) && Enabled(sys, true, s, a)
    requires a.Write? ==> s.disk.prior.None?
    ensures AcksCovered(Do(sys, true, s, a))
  {
    hide Covers, Places, StateOk, DoneOk, Recs;
  }

  /** What was acknowledged before is still there, in its place. */
  ghost predicate AckedKept<R>(t: Trace<R>, u: Trace<R>) {
    && t.acked <= |t.history| && t.acked <= u.acked <= |u.history|
    && t.history[..t.acked] == u.history[..t.acked]
  }

  lemma UpStepKeepsAcked<S, R>(sys: System<S, R>, s: State<S, R>, a: Action<R>)
    requires s.trace.acked <= |s.trace.history| && Enabled(sys, true, s, a) && !a.Crash?
    ensures AckedKept(s.trace, Do(sys, true, s, a).trace)
  {
  }

  lemma CrashKeepsAcked<S, R>(sys: System<S, R>, s: State<S, R>, keep: nat, torn: bool, flushed: nat,
                              revert: bool, shown: nat)
    requires Inv(sys, true, s) && AcksCovered(s)
    requires Enabled(sys, true, s, Crash(keep, torn, flushed, revert, shown))
    ensures AckedKept(s.trace, CrashStep(s, keep, torn, flushed, revert, shown).trace)
  {
    hide Covers, Places, FileOk, StateOk, DoneOk, PhaseOk, Recs;
    if !Strands(s, revert) {
      var f := Live(s.disk);
      assert f.tokens[..keep][..f.flushed] == f.tokens[..f.flushed];
      RecsPrefix(f.tokens[..keep], f.flushed);
    }
  }

  lemma AckedIsPast<S, R>(sys: System<S, R>, s: State<S, R>)
    requires Inv(sys, true, s)
    ensures s.trace.acked <= |s.trace.history|
  {
    hide DiskOk, ProcOk;
  }

  lemma {:induction false} NamedRun<S, R>(sys: System<S, R>, s: State<S, R>, run: seq<Action<R>>)
    requires Inv(sys, true, s) && AcksCovered(s) && Run(sys, true, s, run).Some? && Named(sys, true, s, run)
    ensures var t := Run(sys, true, s, run).value;
      Inv(sys, true, t) && AcksCovered(t) && AckedKept(s.trace, t.trace)
    decreases |run|
  {
    hide Inv, AcksCovered, Enabled, Recover, CrashStep;
    AckedIsPast(sys, s);
    if run != [] {
      var a := run[0];
      StepKeeps(sys, true, s, a);
      AcksStayCovered(sys, s, a);
      if a.Crash? {
        CrashKeepsAcked(sys, s, a.keep, a.torn, a.flushed, a.revert, a.shown);
      } else {
        UpStepKeepsAcked(sys, s, a);
      }
      hide Do;
      NamedRun(sys, Do(sys, true, s, a), run[1..]);
    }
  }

  /**
   Under `every_write`, if no record is written to a file that has lost its name, nothing
   acknowledged is ever lost: at any later point of the run, whatever crashes and restarts
   lie between, the history still begins with the records acknowledged by then.
   */
  lemma NothingAckedIsLost<S, R>(sys: System<S, R>, before: seq<Action<R>>, s: State<S, R>,
                                 later: seq<Action<R>>, t: State<S, R>)
    requires Leads(sys, true, before, s) && Run(sys, true, s, later) == Some(t)
    requires Named(sys, true, Fresh(), before) && Named(sys, true, s, later)
    ensures s.trace.acked <= |s.trace.history|
    ensures s.trace.history[..s.trace.acked] <= t.trace.history
    ensures t.proc.None? && Recover(sys, t.disk).Some? ==> Recover(sys, t.disk) == After(sys, t.trace.history)
  {
    FreshHolds(sys, true);
    NamedRun(sys, Fresh(), before);
    NamedRun(sys, s, later);
    if t.proc.None? && Recover(sys, t.disk).Some? {
      RecoveryIsHistory(sys, true, t);
    }
  }

  /**
   The other way round: wherever a record is written to a file that has lost its name, and
   applies, it is acknowledged, and a crash right then loses it while recovery succeeds.
   */
  lemma NamelessWriteIsLost<S, R>(sys: System<S, R>, run: seq<Action<R>>, s: State<S, R>, r: R)
    requires Leads(sys, true, run, s) && s.disk.prior.Some? && Enabled(sys, true, s, Write(r))
    requires sys.apply(s.proc.value.state, r).Some?
    ensures Run(sys, true, s, [Write(r), Sync, Apply]).Some?
    ensures var t := Run(sys, true, s, [Write(r), Sync, Apply]).value;
      && t.trace.history == s.trace.history + [r] && t.trace.acked == |t.trace.history| && Ready(t)
      && Enabled(sys, true, t, Crash(0, false, 0, false, t.disk.durable))
      && var u := CrashStep(t, 0, false, 0, false, t.disk.durable);
         u.trace.history <= s.trace.history && Recover(sys, u.disk) == After(sys, u.trace.history)
         && Recover(sys, u.disk).Some?
  {
    FreshHolds(sys, true);
    RunKeeps(sys, true, Fresh(), run);
    var t1 := Do(sys, true, s, Write(r));
    WriteKeeps(sys, true, s, r);
    var t2 := Do(sys, true, t1, Sync);
    SyncKeeps(sys, true, t1);
    var t := Do(sys, true, t2, Apply);
    var rest: seq<Action<R>> := [Sync, Apply];
    assert [Write(r), Sync, Apply][1..] == rest && rest[1..] == [Apply];
    assert Run(sys, true, s, [Write(r), Sync, Apply]) == Some(t);
    CrashOfNameless(sys, s, t, r);
  }

  lemma CrashOfNameless<S, R>(sys: System<S, R>, s: State<S, R>, t: State<S, R>, r: R)
    requires Inv(sys, true, s) && s.disk.prior.Some? && t.disk.prior.Some?
    requires t.disk.log == s.disk.log && t.disk.snaps == s.disk.snaps && t.disk.durable == s.disk.durable
    requires t.trace.history == s.trace.history + [r] && t.trace.covers == s.trace.covers
    ensures Enabled(sys, true, t, Crash(0, false, 0, false, t.disk.durable))
    ensures var u := CrashStep(t, 0, false, 0, false, t.disk.durable);
      && u.trace.history <= s.trace.history
      && Recover(sys, u.disk).Some? && Recover(sys, u.disk) == After(sys, u.trace.history)
  {
    var last := s.disk.durable - 1;
    assert Covers(sys, s.disk.snaps[last], s.trace.covers[last], s.trace.history);
    var u := CrashStep(t, 0, false, 0, false, t.disk.durable);
    assert u.trace.history == s.trace.history[..s.trace.covers[last]];
    assert u.disk.log.tokens == [] && u.disk.log.tokens[0..] == [];
  }

  // ---------------------------------------------------------------- only automatic truncation

  /** No truncating snapshot is asked for by a caller: those are the automatic ones. */
  ghost predicate AutoOnly<R>(run: seq<Action<R>>) {
    forall i :: 0 <= i < |run| ==> (run[i].Begin? && run[i].truncate ==> run[i].auto)
  }

  /** A process that writes to a file without a name is truncating, or owes or has made the mark. */
  ghost predicate Attended<S, R>(s: State<S, R>) {
    s.proc.Some? ==>
      var p := s.proc.value;
      && (p.phase.Captured? || p.phase.Shown? ==> p.phase.truncate ==> p.phase.auto)
      && (p.phase.Truncating? || p.phase.Swapped? || p.phase.Settled? ==> p.phase.auto)
      && (s.disk.prior.Some? ==> p.phase.Swapped? || p.phase.Settled? || !p.mark.Unmarked?)
  }

  lemma AttendedKeeps<S, R>(sys: System<S, R>, everyWrite: bool, s: State<S, R>, a: Action<R>)
    requires Inv(sys, everyWrite, s) && Attended(s) && Enabled(sys, everyWrite, s, a)
    requires a.Begin? && a.truncate ==> a.auto
    ensures Attended(Do(sys, everyWrite, s, a))
  {
    hide Covers, Places, StateOk, DoneOk, DiskOk, AckOk, JustTaken, Recs, Recover;
  }

  lemma {:induction false} AttendedRun<S, R>(sys: System<S, R>, everyWrite: bool, s: State<S, R>, run: seq<Action<R>>)
    requires Inv(sys, everyWrite, s) && Attended(s) && AutoOnly(run) && Run(sys, everyWrite, s, run).Some?
    ensures Attended(Run(sys, everyWrite, s, run).value)
    decreases |run|
  {
    if run != [] {
      StepKeeps(sys, everyWrite, s, run[0]);
      AttendedKeeps(sys, everyWrite, s, run[0]);
      hide Inv, Attended, Do, Enabled;
      AttendedRun(sys, everyWrite, Do(sys, everyWrite, s, run[0]), run[1..]);
    }
  }

  /**
   If only automatic snapshots truncate, a record is written to a file that has lost its name
   only between a failed automatic truncation and the mark that its caller still owes.
   */
  lemma OnlyBeforeTheMark<S, R>(sys: System<S, R>, everyWrite: bool, run: seq<Action<R>>, s: State<S, R>, r: R)
    requires Leads(sys, everyWrite, run, s) && AutoOnly(run)
    requires Enabled(sys, everyWrite, s, Write(r)) && s.disk.prior.Some?
    ensures s.proc.value.mark.Due?
  {
    FreshHolds(sys, everyWrite);
    AttendedRun(sys, everyWrite, Fresh(), run);
  }

  // ---------------------------------------------------------------- a record that does not apply

  /** Once a flushed record does not apply, no start ever succeeds again. */
  lemma {:induction false} PoisonIsForever<S, R>(sys: System<S, R>, everyWrite: bool, s: State<S, R>,
                                                 run: seq<Action<R>>)
    requires Inv(sys, everyWrite, s) && s.proc.None?
    requires Secured(s) <= |s.trace.history| && After(sys, s.trace.history[..Secured(s)]).None?
    requires Run(sys, everyWrite, s, run).Some?
    ensures Recover(sys, Run(sys, everyWrite, s, run).value.disk).None?
    decreases |run|
  {
    if After(sys, s.trace.history).Some? {
      PrefixApplies(sys, s.trace.history, Secured(s));
    }
    if Recover(sys, s.disk).Some? {
      RecoveryIsHistory(sys, everyWrite, s);
    }
    if run != [] {
      var a := run[0];
      PoisonSurvives(sys, everyWrite, s, a.keep, a.torn, a.flushed, a.revert, a.shown);
      PoisonIsForever(sys, everyWrite, Do(sys, everyWrite, s, a), run[1..]);
    }
  }

  lemma PoisonSurvives<S, R>(sys: System<S, R>, everyWrite: bool, s: State<S, R>, keep: nat, torn: bool,
                             flushed: nat, revert: bool, shown: nat)
    requires Inv(sys, everyWrite, s) && s.proc.None?
    requires Secured(s) <= |s.trace.history| && After(sys, s.trace.history[..Secured(s)]).None?
    requires Enabled(sys, everyWrite, s, Crash(keep, torn, flushed, revert, shown))
    ensures var t := CrashStep(s, keep, torn, flushed, revert, shown);
      && Inv(sys, everyWrite, t)
      && Secured(t) <= |t.trace.history| && After(sys, t.trace.history[..Secured(t)]).None?
  {
    CrashKeeps(sys, everyWrite, s, keep, torn, flushed, revert, shown);
    var t := CrashStep(s, keep, torn, flushed, revert, shown);
    var f := s.disk.log;
    var g := t.disk.log;
    RecsPrefix(g.tokens, flushed);
    assert g.tokens[..flushed][..f.flushed] == f.tokens[..f.flushed];
    RecsPrefix(g.tokens[..flushed], f.flushed);
    var early := t.trace.history[..Secured(t)];
    assert early[..Secured(s)] == s.trace.history[..Secured(s)];
    if After(sys, early).Some? {
      PrefixApplies(sys, early, Secured(s));
    }
  }

  /**
   A record logged without a check, which then does not apply: once it is flushed, whatever
   crash and whatever else follows, no start ever succeeds again.
   */
  lemma RefusedRecordPoisons<S, R>(sys: System<S, R>, everyWrite: bool, s: State<S, R>, r: R, keep: nat, torn: bool,
                                   flushed: nat, revert: bool, shown: nat, later: seq<Action<R>>)
    requires Inv(sys, everyWrite, s) && Enabled(sys, everyWrite, s, Write(r)) && s.disk.prior.None?
    requires sys.apply(s.proc.value.state, r).None?
    requires var t := Do(sys, everyWrite, Do(sys, everyWrite, s, Write(r)), Sync);
      && Enabled(sys, everyWrite, t, Crash(keep, torn, flushed, revert, shown))
      && Run(sys, everyWrite, CrashStep(t, keep, torn, flushed, revert, shown), later).Some?
    ensures var t := Do(sys, everyWrite, Do(sys, everyWrite, s, Write(r)), Sync);
      Recover(sys, Run(sys, everyWrite, CrashStep(t, keep, torn, flushed, revert, shown), later).value.disk).None?
  {
    var t0 := Do(sys, everyWrite, s, Write(r));
    WriteKeeps(sys, everyWrite, s, r);
    SyncKeeps(sys, everyWrite, t0);
    var t := Do(sys, everyWrite, t0, Sync);
    CrashKeeps(sys, everyWrite, t, keep, torn, flushed, revert, shown);
    var u := CrashStep(t, keep, torn, flushed, revert, shown);
    assert t.disk.log.tokens[..keep] == t.disk.log.tokens;
    PoisonedByCrash(sys, everyWrite, s, r, u);
    PoisonIsForever(sys, everyWrite, u, later);
  }

  lemma PoisonedByCrash<S, R>(sys: System<S, R>, everyWrite: bool, s: State<S, R>, r: R, u: State<S, R>)
    requires Inv(sys, everyWrite, s) && Ready(s) && sys.apply(s.proc.value.state, r).None?
    requires Inv(sys, everyWrite, u) && u.proc.None? && u.trace.history == s.trace.history + [r]
    requires u.disk.log.flushed == |u.disk.log.tokens|
    ensures Secured(u) <= |u.trace.history| && After(sys, u.trace.history[..Secured(u)]).None?
  {
    var f := u.disk.log;
    assert f.tokens[..f.flushed] == f.tokens;
    assert u.trace.history[..Secured(u)] == u.trace.history;
    assert u.trace.history[..|u.trace.history| - 1] == s.trace.history;
  }

  // ---------------------------------------------------------------- a start in the middle of a line

  lemma {:induction false} LinedAlternates<R>(tokens: seq<Token<R>>, i: nat)
    requires Lined(tokens) && i < |tokens| && tokens[i].Rec?
    ensures i + 1 < |tokens| && tokens[i + 1].NL?
    decreases |tokens|
  {
    if i >= 2 {
      LinedAlternates(tokens[2..], i - 2);
    }
  }

  lemma TwoOnALine<R>(tokens: seq<Token<R>>, i: nat)
    requires i + 1 < |tokens| && tokens[i].Rec? && tokens[i + 1].Rec?
    ensures !Legible(tokens)
  {
    if Lined(tokens) {
      LinedAlternates(tokens, i);
    } else if Lined(tokens[..|tokens| - 1]) {
      LinedAlternates(tokens[..|tokens| - 1], i);
    }
  }

  /**
   A process that started on a log whose last line lacks its newline joins the next record to
   that line. After any crash that keeps that record, recovery refuses, acknowledged or not.
   */
  lemma JoinedLineRefuses<S, R>(sys: System<S, R>, everyWrite: bool, s: State<S, R>, r: R, keep: nat, torn: bool,
                                flushed: nat, revert: bool, shown: nat)
    requires Inv(sys, everyWrite, s) && Enabled(sys, everyWrite, s, Write(r)) && s.disk.prior.None?
    requires !EndsLine(s.disk.log.tokens)
    requires var t := Do(sys, everyWrite, s, Write(r));
      Enabled(sys, everyWrite, t, Crash(keep, torn, flushed, revert, shown))
    requires |s.disk.log.tokens| < keep
    ensures Recover(sys, CrashStep(Do(sys, everyWrite, s, Write(r)), keep, torn, flushed, revert, shown).disk).None?
  {
    var t := Do(sys, everyWrite, s, Write(r));
    WriteKeeps(sys, everyWrite, s, r);
    CrashKeeps(sys, everyWrite, t, keep, torn, flushed, revert, shown);
    var u := CrashStep(t, keep, torn, flushed, revert, shown);
    hide Inv, CrashStep, Do, Enabled;
    JoinedRefuses(sys, everyWrite, u, |s.disk.log.tokens|);
  }

  /** Two records meet on a line after the offset, or the offset is between them. */
  lemma JoinedRefuses<S, R>(sys: System<S, R>, everyWrite: bool, u: State<S, R>, n: nat)
    requires Inv(sys, everyWrite, u) && u.proc.None? && Offset(sys, everyWrite, u) <= n
    requires 0 < n < |u.disk.log.tokens| && u.disk.log.tokens[n - 1].Rec? && u.disk.log.tokens[n].Rec?
    ensures Recover(sys, u.disk).None?
  {
    hide Inv, Recover, Legible;
    RefusesExactly(sys, everyWrite, u);
    var offset := Offset(sys, everyWrite, u);
    if offset < n {
      TwoOnALine(u.disk.log.tokens[offset..], n - 1 - offset);
    }
  }

}
