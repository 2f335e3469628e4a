/** Each step of the protocol keeps the invariant; so does every run. */
module DurableSteps {

  import opened Wrappers
  import opened DurableLog
  import opened DurableProtocol
  import opened DurableInvariant

  /** The offset a snapshot gives lies within the log: neither number ever sends recovery away. */
  lemma OffsetResolves<S, R>(sys: System<S, R>, everyWrite: bool, s: State<S, R>)
    requires Inv(sys, everyWrite, s) && s.proc.None? && s.disk.snaps != []
    ensures var last := |s.disk.snaps| - 1;
      var offset := ReplayOffset(s.disk.snaps[last], s.disk.log);
      && offset.Some? && offset.value <= s.disk.log.flushed <= |s.disk.log.tokens|
      && |s.trace.covers| == |s.disk.snaps|
      && Covers(sys, s.disk.snaps[last], s.trace.covers[last], s.trace.history)
      && s.trace.covers[last] == s.trace.start + |Recs(s.disk.log.tokens[..offset.value])|
  {
  }

  /** What the file has after the offset is what the history has after the records covered. */
  lemma RestOfHistory<R>(log: File<R>, offset: nat, start: nat, history: seq<R>)
    requires FileOk(log, start, history) && offset <= |log.tokens|
    ensures var covers := start + |Recs(log.tokens[..offset])|;
      covers <= |history| && history == history[..covers] + Recs(log.tokens[offset..])
  {
    hide Recs;
    RecsPrefix(log.tokens, offset);
  }

  /** Replaying the rest of the log on what a prefix gives is applying the whole history. */
  lemma ReplayIsHistory<S, R>(sys: System<S, R>, state: S, covers: nat, log: File<R>, offset: nat, start: nat,
                              history: seq<R>)
    requires FileOk(log, start, history) && offset <= |log.tokens|
    requires covers == start + |Recs(log.tokens[..offset])| <= |history|
    requires After(sys, history[..covers]) == Some(state)
    requires ReadFrom(sys.fits, log, offset).Some?
    ensures !log.torn && ReplayFrom(sys, state, log, offset) == After(sys, history)
  {
    ReadLinesSound(sys.fits, log.tokens[offset..], log.torn);
    RestOfHistory(log, offset, start, history);
    hide Recs, ReadLines, Replay;
    ReplayConcat(sys, sys.init, history[..covers], Recs(log.tokens[offset..]), state);
  }

  /** Where replay begins; recovery never refuses for want of an offset. */
  ghost function Offset<S, R>(sys: System<S, R>, everyWrite: bool, s: State<S, R>): (offset: nat)
    requires Inv(sys, everyWrite, s) && s.proc.None?
    ensures offset <= s.disk.log.flushed <= |s.disk.log.tokens|
  {
    if s.disk.snaps == [] then 0
    else
      OffsetResolves(sys, everyWrite, s);
      ReplayOffset(s.disk.snaps[|s.disk.snaps| - 1], s.disk.log).value
  }

  lemma ReadableGivesHistory<S, R>(sys: System<S, R>, everyWrite: bool, s: State<S, R>)
    requires Inv(sys, everyWrite, s) && s.proc.None?
    requires ReadFrom(sys.fits, s.disk.log, Offset(sys, everyWrite, s)).Some?
    ensures !s.disk.log.torn && Recover(sys, s.disk) == After(sys, s.trace.history)
  {
    var log := s.disk.log;
    if s.disk.snaps == [] {
      assert log.tokens[..0] == [] && s.trace.history[..0] == [];
      ReplayIsHistory(sys, sys.init, 0, log, 0, 0, s.trace.history);
    } else {
      var last := |s.disk.snaps| - 1;
      ReplayIsHistory(sys, s.disk.snaps[last].state, s.trace.covers[last], log, Offset(sys, everyWrite, s),
                      s.trace.start, s.trace.history);
    }
  }

  /** What recovery comes up with, if anything, is the in-order application of the history. */
  lemma RecoveryIsHistory<S, R>(sys: System<S, R>, everyWrite: bool, s: State<S, R>)
    requires Inv(sys, everyWrite, s) && s.proc.None?
    requires Recover(sys, s.disk).Some?
    ensures Recover(sys, s.disk) == After(sys, s.trace.history)
    ensures !s.disk.log.torn
  {
    if ReadFrom(sys.fits, s.disk.log, Offset(sys, everyWrite, s)).Some? {
      ReadableGivesHistory(sys, everyWrite, s);
    }
  }

  lemma WriteKeeps<S, R>(sys: System<S, R>, everyWrite: bool, s: State<S, R>, r: R)
    requires Inv(sys, everyWrite, s) && Enabled(sys, everyWrite, s, Write(r))
    ensures Inv(sys, everyWrite, Do(sys, everyWrite, s, Write(r)))
  {
    var torn := Live(s.disk).torn;
    RecsOfLine(r);
    GrowKeepsDisk(sys, s.disk, s.trace, Line(r), torn);
    GrowKeepsAck(everyWrite, Live(s.disk), s.trace, Line(r), torn, [r]);
  }

  lemma WriteFailsKeeps<S, R>(sys: System<S, R>, everyWrite: bool, s: State<S, R>, r: R, kept: nat, torn: bool)
    requires Inv(sys, everyWrite, s) && Enabled(sys, everyWrite, s, WriteFails(r, kept, torn))
    ensures Inv(sys, everyWrite, Do(sys, everyWrite, s, WriteFails(r, kept, torn)))
  {
    var more := Line(r)[..kept];
    var rs := if kept == 0 then [] else [r];
    assert Recs(more) == rs by {
      RecsOfLine(r);
    }
    GrowKeepsDisk(sys, s.disk, s.trace, more, torn);
    GrowKeepsAck(everyWrite, Live(s.disk), s.trace, more, torn, rs);
  }

  lemma SyncKeeps<S, R>(sys: System<S, R>, everyWrite: bool, s: State<S, R>)
    requires Inv(sys, everyWrite, s) && s.proc.Some?
    ensures Inv(sys, everyWrite, s.(disk := Flushed(s.disk)))
  {
    FlushKeeps(sys, everyWrite, s.disk, s.trace);
  }

  lemma ApplyKeeps<S, R>(sys: System<S, R>, everyWrite: bool, s: State<S, R>)
    requires Inv(sys, everyWrite, s) && Enabled(sys, everyWrite, s, Apply)
    ensures Inv(sys, everyWrite, Do(sys, everyWrite, s, Apply))
  {
    var p := s.proc.value;
    if sys.apply(p.state, p.phase.record).Some? {
      var t := Do(sys, everyWrite, s, Apply);
      AcknowledgedDone(p, t.proc.value, s.trace, t.trace);
      AckedNow(everyWrite, Live(s.disk), s.trace, t.trace);
    }
  }

  /** One more acknowledged: again nothing was written that was not. */
  lemma AcknowledgedDone<S, R>(p: Proc<S, R>, q: Proc<S, R>, t: Trace<R>, u: Trace<R>)
    requires DoneOk(p, t) && p.phase.Written? && !p.failed && q.phase.Idle?
    requires 0 < |t.history| && t.history[|t.history| - 1] == p.phase.record
    requires u == t.(acked := |t.history|, done := t.done + [p.phase.record])
    ensures DoneOk(q, u)
  {
    assert t.history[t.began..|t.history|] == t.done + [p.phase.record];
  }

  lemma AckedNow<R>(everyWrite: bool, f: File<R>, t: Trace<R>, u: Trace<R>)
    requires AckOk(everyWrite, f, t) && FileOk(f, t.start, t.history)
    requires everyWrite ==> f.flushed == |f.tokens|
    requires u.history == t.history && u.start == t.start && u.acked == |t.history|
    ensures AckOk(everyWrite, f, u)
  {
    assert f.flushed == |f.tokens| ==> f.tokens[..f.flushed] == f.tokens;
  }

  lemma BeginKeeps<S, R>(sys: System<S, R>, everyWrite: bool, s: State<S, R>, auto: bool, truncate: bool)
    requires Inv(sys, everyWrite, s) && Enabled(sys, everyWrite, s, Begin(auto, truncate))
    ensures Inv(sys, everyWrite, Do(sys, everyWrite, s, Begin(auto, truncate)))
  {
    FlushKeeps(sys, everyWrite, s.disk, s.trace);
  }

  lemma ShowKeeps<S, R>(sys: System<S, R>, everyWrite: bool, s: State<S, R>)
    requires Inv(sys, everyWrite, s) && Enabled(sys, everyWrite, s, Show)
    ensures Inv(sys, everyWrite, Do(sys, everyWrite, s, Show))
  {
    var f := Live(s.disk);
    assert f.tokens[..|f.tokens|] == f.tokens;
    var h := s.trace.history;
    assert h[..|h|] == h;
  }

  lemma SecureKeeps<S, R>(sys: System<S, R>, everyWrite: bool, s: State<S, R>)
    requires Inv(sys, everyWrite, s) && Enabled(sys, everyWrite, s, Secure)
    ensures Inv(sys, everyWrite, Do(sys, everyWrite, s, Secure))
  {
  }

  lemma SwapKeeps<S, R>(sys: System<S, R>, everyWrite: bool, s: State<S, R>)
    requires Inv(sys, everyWrite, s) && Enabled(sys, everyWrite, s, Swap)
    ensures Inv(sys, everyWrite, Do(sys, everyWrite, s, Swap))
  {
  }

  lemma SettleKeeps<S, R>(sys: System<S, R>, everyWrite: bool, s: State<S, R>)
    requires Inv(sys, everyWrite, s) && Enabled(sys, everyWrite, s, Settle)
    ensures Inv(sys, everyWrite, Do(sys, everyWrite, s, Settle))
  {
  }

  /** The snapshot just taken places the new, empty file; earlier ones no longer count. */
  lemma ReopenedDisk<S, R>(sys: System<S, R>, everyWrite: bool, s: State<S, R>, ok: bool)
    requires Inv(sys, everyWrite, s) && Enabled(sys, everyWrite, s, Reopen)
    ensures DiskOk(sys, ReopenStep(s, ok).disk, ReopenStep(s, ok).trace)
    ensures AckOk(everyWrite, Live(ReopenStep(s, ok).disk), ReopenStep(s, ok).trace)
  {
    hide StateOk, DoneOk, Covers;
    var last := |s.disk.snaps| - 1;
    assert Covers(sys, s.disk.snaps[last], s.trace.covers[last], s.trace.history);
    assert s.trace.history[|s.trace.history|..] == [] == Recs(s.disk.log.tokens);
    hide Recs;
  }

  lemma ReopenKeeps<S, R>(sys: System<S, R>, everyWrite: bool, s: State<S, R>, ok: bool)
    requires Inv(sys, everyWrite, s) && Enabled(sys, everyWrite, s, Reopen)
    ensures Inv(sys, everyWrite, ReopenStep(s, ok))
  {
    hide SnapsOk, FileOk, AckOk;
    ReopenedDisk(sys, everyWrite, s, ok);
  }

  lemma CrashKeeps<S, R>(sys: System<S, R>, everyWrite: bool, s: State<S, R>, keep: nat, torn: bool, flushed: nat,
                         revert: bool, shown: nat)
    requires Inv(sys, everyWrite, s)
    requires Enabled(sys, everyWrite, s, Crash(keep, torn, flushed, revert, shown))
    ensures Inv(sys, everyWrite, CrashStep(s, keep, torn, flushed, revert, shown))
    ensures Remaining(s, keep, revert, shown) <= |s.trace.history|
  {
    var t := s.trace;
    if s.disk.prior.Some? && !revert {
      var last := shown - 1;
      assert Covers(sys, s.disk.snaps[last], t.covers[last], t.history);
      CrashOnNew(sys, everyWrite, s, keep, torn, flushed, shown);
    } else {
      CrashOnOld(sys, everyWrite, s, keep, torn, flushed, revert, shown);
    }
  }

  /** The crash leaves the path naming the file written to, cut somewhere past its flushed part. */
  lemma CrashOnOld<S, R>(sys: System<S, R>, everyWrite: bool, s: State<S, R>, keep: nat, torn: bool, flushed: nat,
                         revert: bool, shown: nat)
    requires Inv(sys, everyWrite, s) && (s.disk.prior.Some? ==> revert)
    requires Enabled(sys, everyWrite, s, Crash(keep, torn, flushed, revert, shown))
    ensures Inv(sys, everyWrite, CrashStep(s, keep, torn, flushed, revert, shown))
    ensures Remaining(s, keep, revert, shown) <= |s.trace.history|
  {
    hide Covers, Places, ProcOk, Recs;
    var f := Surviving(s.disk, revert);
    var t := s.trace;
    CutKeeps(sys, s.disk.snaps[..shown], shown, f, t.(covers := t.covers[..shown]),
             keep, torn, flushed, Remaining(s, keep, revert, shown));
    var g := Cut(f, keep, torn, flushed);
    assert g.tokens[..f.flushed] == f.tokens[..f.flushed];
    assert g.tokens[..flushed][..f.flushed] == f.tokens[..f.flushed];
    RecsPrefix(g.tokens[..flushed], f.flushed);
  }

  /** The crash leaves the path naming the new, empty file while the old one was written to. */
  lemma CrashOnNew<S, R>(sys: System<S, R>, everyWrite: bool, s: State<S, R>, keep: nat, torn: bool, flushed: nat,
                         shown: nat)
    requires Inv(sys, everyWrite, s) && s.disk.prior.Some?
    requires Enabled(sys, everyWrite, s, Crash(keep, torn, flushed, false, shown))
    requires s.trace.covers[shown - 1] <= |s.trace.history|
    ensures Inv(sys, everyWrite, CrashStep(s, keep, torn, flushed, false, shown))
  {
    var last := shown - 1;
    var left := s.trace.covers[last];
    var kept := s.trace.history[..left];
    assert kept[..left] == kept && kept[left..] == [];
  }

  /** A process that starts has recovered the effects of the history. */
  lemma StartKeeps<S, R>(sys: System<S, R>, everyWrite: bool, s: State<S, R>)
    requires Inv(sys, everyWrite, s) && Enabled(sys, everyWrite, s, Start)
    ensures Inv(sys, everyWrite, Do(sys, everyWrite, s, Start))
  {
    RecoveryIsHistory(sys, everyWrite, s);
  }

  /** An operation that ends early, or a mark, leaves the disk and the history as they are. */
  lemma StopKeeps<S, R>(sys: System<S, R>, everyWrite: bool, s: State<S, R>, a: Action<R>)
    requires Inv(sys, everyWrite, s) && Enabled(sys, everyWrite, s, a)
    requires a.SyncFails? || a.BeginFails? || a.Abandon? || a.Mark?
    ensures Inv(sys, everyWrite, Do(sys, everyWrite, s, a))
  {
    hide DiskOk, AckOk, Recover;
  }

  lemma StepKeeps<S, R>(sys: System<S, R>, everyWrite: bool, s: State<S, R>, a: Action<R>)
    requires Inv(sys, everyWrite, s) && Enabled(sys, everyWrite, s, a)
    ensures Inv(sys, everyWrite, Do(sys, everyWrite, s, a))
  {
    hide DiskOk, AckOk, PhaseOk, StateOk, DoneOk, Recover, CrashStep;
    match a
    case Write(r) => WriteKeeps(sys, everyWrite, s, r);
    case WriteFails(r, kept, torn) => WriteFailsKeeps(sys, everyWrite, s, r, kept, torn);
    case Sync => SyncKeeps(sys, everyWrite, s);
    case SyncFails => StopKeeps(sys, everyWrite, s, a);
    case Apply => ApplyKeeps(sys, everyWrite, s);
    case Begin(auto, truncate) => BeginKeeps(sys, everyWrite, s, auto, truncate);
    case BeginFails(auto) => StopKeeps(sys, everyWrite, s, a);
    case Show => ShowKeeps(sys, everyWrite, s);
    case Secure => SecureKeeps(sys, everyWrite, s);
    case Swap => SwapKeeps(sys, everyWrite, s);
    case Settle => SettleKeeps(sys, everyWrite, s);
    case Reopen => ReopenKeeps(sys, everyWrite, s, true);
    case Abandon => StopKeeps(sys, everyWrite, s, a);
    case Strand => ReopenKeeps(sys, everyWrite, s, false);
    case Mark => StopKeeps(sys, everyWrite, s, a);
    case Crash(keep, torn, flushed, revert, shown) =>
      CrashKeeps(sys, everyWrite, s, keep, torn, flushed, revert, shown);
    case Start => StartKeeps(sys, everyWrite, s);
  }

  lemma FreshHolds<S, R>(sys: System<S, R>, everyWrite: bool)
    ensures Inv(sys, everyWrite, Fresh())
  {
  }

  lemma {:induction false} RunKeeps<S, R>(sys: System<S, R>, everyWrite: bool, s: State<S, R>, run: seq<Action<R>>)
    requires Inv(sys, everyWrite, s) && Run(sys, everyWrite, s, run).Some?
    ensures Inv(sys, everyWrite, Run(sys, everyWrite, s, run).value)
    decreases |run|
  {
    if run != [] {
      StepKeeps(sys, everyWrite, s, run[0]);
      RunKeeps(sys, everyWrite, Do(sys, everyWrite, s, run[0]), run[1..]);
    }
  }
}
