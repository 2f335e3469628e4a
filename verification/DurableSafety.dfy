/** Crash safety of the durable store over whole runs, and when recovery refuses. */
module DurableSafety {

  import opened Wrappers
  import opened DurableLog
  import opened DurableProtocol
  import opened DurableInvariant
  import opened DurableSteps

  /** A state some run from a fresh store leads to. */
  ghost predicate Leads<S, R>(sys: System<S, R>, everyWrite: bool, run: seq<Action<R>>, s: State<S, R>) {
    Run(sys, everyWrite, Fresh(), run) == Some(s)
  }

  /** How many records of the history are in the flushed part of the file written to. */
  ghost function Secured<S, R>(s: State<S, R>): nat
    requires Live(s.disk).flushed <= |Live(s.disk).tokens|
  {
    s.trace.start + |Recs(Live(s.disk).tokens[..Live(s.disk).flushed])|
  }

  /**
   The crash finds the process writing to a file its path no longer names, and the disk with
   the new name.
   */
  ghost predicate Strands<S, R>(s: State<S, R>, revert: bool) {
    s.disk.prior.Some? && !revert
  }

  /**
   After a crash at any point of any run, recovery refuses or gives the in-order application
   of a prefix of the records written; that prefix has every flushed record, or, where the
   file written to had lost its name, every record the newest surviving snapshot covers.
   */
  lemma CrashSafety<S, R>(sys: System<S, R>, everyWrite: bool, run: seq<Action<R>>, s: State<S, R>,
                          keep: nat, torn: bool, flushed: nat, revert: bool, shown: nat)
    requires Leads(sys, everyWrite, run, s)
    requires Enabled(sys, everyWrite, s, Crash(keep, torn, flushed, revert, shown))
    ensures var t := CrashStep(s, keep, torn, flushed, revert, shown);
      && t.trace.history <= s.trace.history
      && (Recover(sys, t.disk).Some? ==> Recover(sys, t.disk) == After(sys, t.trace.history))
      && Live(s.disk).flushed <= |Live(s.disk).tokens|
      && (!Strands(s, revert) ==> Secured(s) <= |t.trace.history|)
      && (Strands(s, revert) ==> |t.trace.history| == s.trace.covers[shown - 1])
  {
    FreshHolds(sys, everyWrite);
    RunKeeps(sys, everyWrite, Fresh(), run);
    CrashKeeps(sys, everyWrite, s, keep, torn, flushed, revert, shown);
    var t := CrashStep(s, keep, torn, flushed, revert, shown);
    if Recover(sys, t.disk).Some? {
      RecoveryIsHistory(sys, everyWrite, t);
    }
    hide Covers, Places, Recs, Recover;
    var f := Live(s.disk);
    if !Strands(s, revert) {
      assert f.tokens[..keep][..f.flushed] == f.tokens[..f.flushed];
      RecsPrefix(f.tokens[..keep], f.flushed);
    }
  }

  /**
   Every acknowledged record survives a crash under `every_write`, unless the process was
   writing to a file that had lost its name after the snapshot that now counts.
   */
  lemma CrashLosesExactly<S, R>(sys: System<S, R>, run: seq<Action<R>>, s: State<S, R>,
                                keep: nat, torn: bool, flushed: nat, revert: bool, shown: nat)
    requires Leads(sys, true, run, s)
    requires Enabled(sys, true, s, Crash(keep, torn, flushed, revert, shown))
    ensures var t := CrashStep(s, keep, torn, flushed, revert, shown);
      && s.trace.acked <= |s.trace.history|
      && (!(s.trace.history[..s.trace.acked] <= t.trace.history)
          <==> Strands(s, revert) && s.trace.covers[shown - 1] < s.trace.acked)
  {
    RunKeeps(sys, true, Fresh(), run);
    CrashSafety(sys, true, run, s, keep, torn, flushed, revert, shown);
  }

  /**
   In one process the records written are the acknowledged operations in order, then at most
   one more; none more while the store is healthy and between operations.
   */
  lemma AtMostOneUnacknowledged<S, R>(sys: System<S, R>, everyWrite: bool, run: seq<Action<R>>, s: State<S, R>)
    requires Leads(sys, everyWrite, run, s) && s.proc.Some?
    ensures s.trace.began <= |s.trace.history| && s.trace.start <= |s.trace.history|
    ensures Recs(Live(s.disk).tokens) == s.trace.history[s.trace.start..]
    ensures |s.trace.done| <= |s.trace.history[s.trace.began..]| <= |s.trace.done| + 1
    ensures s.trace.done <= s.trace.history[s.trace.began..]
    ensures Ready(s) ==> s.trace.done == s.trace.history[s.trace.began..]
    ensures Ready(s) ==> After(sys, s.trace.history) == Some(s.proc.value.state)
  {
    RunKeeps(sys, everyWrite, Fresh(), run);
  }

  // ---------------------------------------------------------------- when recovery refuses

  /** Lines, the last of which may lack its newline. */
  ghost predicate Legible<R>(tokens: seq<Token<R>>) {
    || Lined(tokens)
    || (tokens != [] && tokens[|tokens| - 1].Rec? && Lined(tokens[..|tokens| - 1]))
  }

  lemma {:induction false} ReadsWhenLegible<R>(fits: R -> bool, tokens: seq<Token<R>>, torn: bool)
    ensures ReadLines(fits, tokens, torn).Some? <==> !torn && Legible(tokens) && AllFit(fits, tokens)
    decreases |tokens|
  {
    if |tokens| >= 2 && tokens[0].Rec? && tokens[1].NL? {
      ReadsWhenLegible(fits, tokens[2..], torn);
      FitFromTwo(fits, tokens);
      if |tokens| > 2 {
        assert tokens[2..][..|tokens[2..]| - 1] == tokens[..|tokens| - 1][2..];
      }
    }
  }

  lemma FitFromTwo<R>(fits: R -> bool, tokens: seq<Token<R>>)
    requires |tokens| >= 2 && tokens[0].Rec? && tokens[1].NL?
    ensures AllFit(fits, tokens) <==> fits(tokens[0].record) && AllFit(fits, tokens[2..])
  {
    assert forall i :: 2 <= i < |tokens| ==> tokens[i] == tokens[2..][i - 2];
  }

  /**
   Recovery refuses exactly when the file ends in a torn record, when the lines after the
   snapshot's position do not parse or that position is not a line start, when a record there
   is too long to be read back, or when one does not apply. The generations always match and
   the offset is always within the file.
   */
  lemma RefusesExactly<S, R>(sys: System<S, R>, everyWrite: bool, s: State<S, R>)
    requires Inv(sys, everyWrite, s) && s.proc.None?
    ensures var offset := Offset(sys, everyWrite, s);
      Recover(sys, s.disk).None? <==>
        || s.disk.log.torn
        || !IsBoundary(s.disk.log.tokens, offset)
        || !Legible(s.disk.log.tokens[offset..])
        || !AllFit(sys.fits, s.disk.log.tokens[offset..])
        || After(sys, s.trace.history).None?
  {
    var log := s.disk.log;
    var offset := Offset(sys, everyWrite, s);
    ReadsWhenLegible(sys.fits, log.tokens[offset..], log.torn);
    if ReadFrom(sys.fits, log, offset).Some? {
      ReadableGivesHistory(sys, everyWrite, s);
    }
  }

  // ---------------------------------------------------------------- careful runs

  /** Starts only on a log that ends with a newline; logs only records that apply. */
  ghost predicate CarefulStep<S, R>(sys: System<S, R>, s: State<S, R>, a: Action<R>) {
    match a
    case Start => EndsLine(s.disk.log.tokens)
    case Write(r) => s.proc.Some? && sys.apply(s.proc.value.state, r).Some?
    case WriteFails(r, kept, torn) => s.proc.Some? && sys.apply(s.proc.value.state, r).Some?
    case _ => true
  }

  ghost predicate Careful<S, R>(sys: System<S, R>, everyWrite: bool, s: State<S, R>, run: seq<Action<R>>)
    requires Run(sys, everyWrite, s, run).Some?
    decreases |run|
  {
    run != [] ==> CarefulStep(sys, s, run[0]) && Careful(sys, everyWrite, Do(sys, everyWrite, s, run[0]), run[1..])
  }

  /** A snapshot of the file's own generation was taken at the end of a line. */
  ghost predicate AtBoundary<S, R>(snap: Snapshot<S>, f: File<R>) {
    snap.generation == f.generation ==> snap.offset <= |f.tokens| && IsBoundary(f.tokens, snap.offset)
  }

  /** What careful steps keep besides. */
  ghost predicate Neat<S, R>(sys: System<S, R>, s: State<S, R>) {
    var f := Live(s.disk);
    && Legible(f.tokens)
    && (s.proc.Some? && !s.proc.value.failed ==> Lined(f.tokens))
    && (s.proc.Some? && s.proc.value.phase.Captured? ==> s.proc.value.phase.snap.offset == |f.tokens|)
    && (forall i :: 0 <= i < |s.disk.snaps| && s.disk.durable - 1 <= i ==> AtBoundary(s.disk.snaps[i], f))
    && After(sys, s.trace.history).Some?
  }

  lemma {:induction false} LegiblePrefix<R>(tokens: seq<Token<R>>, k: nat)
    requires Legible(tokens) && k <= |tokens|
    ensures Legible(tokens[..k])
    decreases |tokens|
  {
    if k == |tokens| {
      assert tokens[..k] == tokens;
    } else if k >= 2 {
      assert Legible(tokens[2..]) by {
        if !Lined(tokens) {
          assert tokens[..|tokens| - 1][2..] == tokens[2..][..|tokens[2..]| - 1];
        }
      }
      LegiblePrefix(tokens[2..], k - 2);
      assert tokens[..k][2..] == tokens[2..][..k - 2];
      if !Lined(tokens[..k]) {
        assert tokens[..k][..k - 1][2..] == tokens[2..][..k - 2][..k - 3];
      }
    }
  }

  lemma {:induction false} LinedEnds<R>(tokens: seq<Token<R>>)
    requires Lined(tokens)
    ensures EndsLine(tokens)
    decreases |tokens|
  {
    if tokens != [] {
      LinedEnds(tokens[2..]);
    }
  }

  lemma {:induction false} PrefixApplies<S, R>(sys: System<S, R>, history: seq<R>, n: nat)
    requires After(sys, history).Some? && n <= |history|
    ensures After(sys, history[..n]).Some?
    decreases |history|
  {
    if n == |history| {
      assert history[..n] == history;
    } else {
      PrefixApplies(sys, history[..|history| - 1], n);
      assert history[..|history| - 1][..n] == history[..n];
    }
  }

  lemma CarefulWrite<S, R>(sys: System<S, R>, everyWrite: bool, s: State<S, R>, r: R)
    requires Inv(sys, everyWrite, s) && Neat(sys, s)
    requires Enabled(sys, everyWrite, s, Write(r)) && CarefulStep(sys, s, Write(r))
    ensures Neat(sys, Do(sys, everyWrite, s, Write(r)))
  {
    var f := Live(s.disk);
    LinedAppend(f.tokens, Line(r));
  }

  lemma CarefulFailure<S, R>(sys: System<S, R>, everyWrite: bool, s: State<S, R>, r: R, kept: nat, torn: bool)
    requires Inv(sys, everyWrite, s) && Neat(sys, s)
    requires Enabled(sys, everyWrite, s, WriteFails(r, kept, torn)) && CarefulStep(sys, s, WriteFails(r, kept, torn))
    ensures Neat(sys, Do(sys, everyWrite, s, WriteFails(r, kept, torn)))
  {
    var f := Live(s.disk);
    var h := s.trace.history;
    PartOfLine(f.tokens, r, kept);
    assert h + [] == h;
  }

  lemma PartOfLine<R>(tokens: seq<Token<R>>, r: R, kept: nat)
    requires Lined(tokens) && kept <= 2
    ensures Legible(tokens + Line(r)[..kept])
  {
    LinedAppend(tokens, Line(r));
    LegiblePrefix(tokens + Line(r), |tokens| + kept);
    assert (tokens + Line(r))[..|tokens| + kept] == tokens + Line(r)[..kept];
  }

  lemma CarefulCrash<S, R>(sys: System<S, R>, everyWrite: bool, s: State<S, R>, keep: nat, torn: bool, flushed: nat,
                           revert: bool, shown: nat)
    requires Inv(sys, everyWrite, s) && Neat(sys, s)
    requires Enabled(sys, everyWrite, s, Crash(keep, torn, flushed, revert, shown))
    ensures Neat(sys, CrashStep(s, keep, torn, flushed, revert, shown))
  {
    CrashKeeps(sys, everyWrite, s, keep, torn, flushed, revert, shown);
    PrefixApplies(sys, s.trace.history, Remaining(s, keep, revert, shown));
    if !Strands(s, revert) {
      var f := Live(s.disk);
      LegiblePrefix(f.tokens, keep);
    }
  }

  lemma CarefulShow<S, R>(sys: System<S, R>, everyWrite: bool, s: State<S, R>)
    requires Inv(sys, everyWrite, s) && Neat(sys, s) && Enabled(sys, everyWrite, s, Show)
    ensures Neat(sys, Do(sys, everyWrite, s, Show))
  {
    LinedEnds(Live(s.disk).tokens);
  }

  /** Neither the sync, nor the steps of a snapshot but its showing, nor a failure cut or join lines. */
  lemma CarefulElsewhere<S, R>(sys: System<S, R>, everyWrite: bool, s: State<S, R>, a: Action<R>)
    requires Inv(sys, everyWrite, s) && Neat(sys, s) && Enabled(sys, everyWrite, s, a) && CarefulStep(sys, s, a)
    requires !(a.Write? || a.WriteFails? || a.Show? || a.Crash?)
    ensures Neat(sys, Do(sys, everyWrite, s, a))
  {
    hide AckOk, StateOk, DoneOk, Covers, Recs, Recover, CrashStep;
  }

  lemma CarefulKeeps<S, R>(sys: System<S, R>, everyWrite: bool, s: State<S, R>, a: Action<R>)
    requires Inv(sys, everyWrite, s) && Neat(sys, s)
    requires Enabled(sys, everyWrite, s, a) && CarefulStep(sys, s, a)
    ensures Neat(sys, Do(sys, everyWrite, s, a))
  {
    hide Inv, Neat, Enabled, CrashStep;
    match a
    case Write(r) => CarefulWrite(sys, everyWrite, s, r);
    case WriteFails(r, kept, torn) => CarefulFailure(sys, everyWrite, s, r, kept, torn);
    case Show => CarefulShow(sys, everyWrite, s);
    case Crash(keep, torn, flushed, revert, shown) =>
      CarefulCrash(sys, everyWrite, s, keep, torn, flushed, revert, shown);
    case _ => CarefulElsewhere(sys, everyWrite, s, a);
  }

  lemma {:induction false} CarefulRunKeeps<S, R>(sys: System<S, R>, everyWrite: bool, s: State<S, R>,
                                                 run: seq<Action<R>>)
    requires Inv(sys, everyWrite, s) && Neat(sys, s)
    requires Run(sys, everyWrite, s, run).Some? && Careful(sys, everyWrite, s, run)
    ensures Inv(sys, everyWrite, Run(sys, everyWrite, s, run).value)
    ensures Neat(sys, Run(sys, everyWrite, s, run).value)
    decreases |run|
  {
    if run != [] {
      StepKeeps(sys, everyWrite, s, run[0]);
      CarefulKeeps(sys, everyWrite, s, run[0]);
      CarefulRunKeeps(sys, everyWrite, Do(sys, everyWrite, s, run[0]), run[1..]);
    }
  }

  /**
   If every start found the log at the end of a line and every logged record applied in the
   state it was logged in, recovery refuses exactly when the file ends in a torn record, or a
   record after the newest snapshot's position is too long to be read back.
   */
  lemma CarefulRefusesExactly<S, R>(sys: System<S, R>, everyWrite: bool, run: seq<Action<R>>, s: State<S, R>)
    requires Leads(sys, everyWrite, run, s) && s.proc.None?
    requires Careful(sys, everyWrite, Fresh(), run)
    ensures Inv(sys, everyWrite, s)
    ensures Recover(sys, s.disk).None? <==>
      s.disk.log.torn || !AllFit(sys.fits, s.disk.log.tokens[Offset(sys, everyWrite, s)..])
  {
    CarefulRunKeeps(sys, everyWrite, Fresh(), run);
    RefusesExactly(sys, everyWrite, s);
    var offset := Offset(sys, everyWrite, s);
    LegibleFrom(s.disk.log.tokens, offset);
  }

  /** Every record that was to be logged is short enough to be read back. */
  ghost predicate Fitting<R>(fits: R -> bool, run: seq<Action<R>>) {
    forall i :: 0 <= i < |run| && (run[i].Write? || run[i].WriteFails?) ==> fits(run[i].record)
  }

  lemma HistoryGrows<S, R>(sys: System<S, R>, everyWrite: bool, s: State<S, R>, a: Action<R>)
    requires Enabled(sys, everyWrite, s, a)
    ensures forall r :: r in Do(sys, everyWrite, s, a).trace.history ==>
      r in s.trace.history || ((a.Write? || a.WriteFails?) && r == a.record)
  {
    hide Recover, Remaining;
  }

  lemma {:induction false} FittingHistory<S, R>(sys: System<S, R>, everyWrite: bool, s: State<S, R>,
                                                run: seq<Action<R>>)
    requires Inv(sys, everyWrite, s) && Run(sys, everyWrite, s, run).Some? && Fitting(sys.fits, run)
    requires forall r :: r in s.trace.history ==> sys.fits(r)
    ensures forall r :: r in Run(sys, everyWrite, s, run).value.trace.history ==> sys.fits(r)
    decreases |run|
  {
    if run != [] {
      var t := Do(sys, everyWrite, s, run[0]);
      StepKeeps(sys, everyWrite, s, run[0]);
      HistoryGrows(sys, everyWrite, s, run[0]);
      hide Inv, Do, Enabled;
      FittingHistory(sys, everyWrite, t, run[1..]);
    }
  }

  lemma {:induction false} RecordedTokens<R>(tokens: seq<Token<R>>, i: nat)
    requires i < |tokens| && tokens[i].Rec?
    ensures tokens[i].record in Recs(tokens)
    decreases |tokens|
  {
    if i < |tokens| - 1 {
      RecordedTokens(tokens[..|tokens| - 1], i);
    }
  }

  /** If besides every record is short enough, recovery refuses exactly a torn record. */
  lemma CarefulRefusesOnlyTorn<S, R>(sys: System<S, R>, everyWrite: bool, run: seq<Action<R>>, s: State<S, R>)
    requires Leads(sys, everyWrite, run, s) && s.proc.None?
    requires Careful(sys, everyWrite, Fresh(), run) && Fitting(sys.fits, run)
    ensures Recover(sys, s.disk).None? <==> s.disk.log.torn
  {
    CarefulRefusesExactly(sys, everyWrite, run, s);
    FreshHolds(sys, everyWrite);
    FittingHistory(sys, everyWrite, Fresh(), run);
    var tokens := s.disk.log.tokens;
    forall i | 0 <= i < |tokens| && tokens[i].Rec? ensures sys.fits(tokens[i].record) {
      RecordedTokens(tokens, i);
    }
  }

  /** What follows a line end in a legible file is legible. */
  lemma {:induction false} LegibleFrom<R>(tokens: seq<Token<R>>, k: nat)
    requires Legible(tokens) && k <= |tokens| && IsBoundary(tokens, k)
    ensures Legible(tokens[k..])
  {
    if Lined(tokens) {
      LinedCut(tokens, k);
    } else {
      var body := tokens[..|tokens| - 1];
      LinedCut(body, k);
      assert tokens[k..][..|tokens[k..]| - 1] == body[k..];
    }
  }
}
