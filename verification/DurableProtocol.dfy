/**
 The log-then-apply protocol of the durable session store, one step at a time, over a disk
 that may lose whatever was not synced. A crash is a step like any other, so it can fall
 between any two of them. File contents found after a crash may still be lost in the next;
 the names found in a directory are taken to be on disk.
 */
module DurableProtocol {

  import opened Wrappers
  import opened DurableLog

  /** One log file. `flushed` tokens are known to be on disk; `torn` says a partial record follows. */
  datatype File<R> = File(generation: nat, tokens: seq<Token<R>>, torn: bool, flushed: nat)

  /** A snapshot names the log generation and the position in it up to which it holds the effects. */
  datatype Snapshot<S> = Snapshot(generation: nat, offset: nat, state: S)

  /**
   `log` is the file the log's path names. While `prior` is present the process still writes
   to a file that has been renamed over; `revertible` says that rename may not be on disk.
   The names of the first `durable` snapshots are on disk.
   */
  datatype Disk<S, R> = Disk(log: File<R>, prior: Option<File<R>>, revertible: bool,
                             snaps: seq<Snapshot<S>>, durable: nat)

  /** Where the process stands in the one operation it has under way. */
  datatype Phase<S, R> =
    | Idle
    | Written(record: R)
    | Captured(auto: bool, truncate: bool, snap: Snapshot<S>)
    | Shown(auto: bool, truncate: bool)
    | Truncating(auto: bool)
    | Swapped(auto: bool)
    | Settled(auto: bool)

  /** The caller of an automatic snapshot that failed has yet to mark the store unhealthy, or has. */
  datatype Mark = Unmarked | Due | Marked

  /**
   The store is unhealthy once a mutation has `failed`, which that mutation itself notes, or
   once a failed automatic snapshot is `Marked`, which happens without the lock, later.
   */
  datatype Proc<S, R> = Proc(generation: nat, open: bool, state: S, failed: bool, mark: Mark, phase: Phase<S, R>)

  /**
   What an observer of the run has seen: every record in the line of history the current
   file continues, how many came before that file, how many each snapshot covers, how many
   there were at the last acknowledgement; and of the current process, how many there were
   when it opened and the operations it has acknowledged since.
   */
  datatype Trace<R> = Trace(history: seq<R>, start: nat, covers: seq<nat>, acked: nat,
                            began: nat, done: seq<R>)

  datatype State<S, R> = State(disk: Disk<S, R>, proc: Option<Proc<S, R>>, trace: Trace<R>)

  datatype Action<R> =
    | Write(record: R)
    | WriteFails(record: R, kept: nat, torn: bool)
    | Sync
    | SyncFails
    | Apply
    | Begin(auto: bool, truncate: bool)
    | BeginFails(auto: bool)
    | Show
    | Secure
    | Swap
    | Settle
    | Reopen
    | Abandon
    | Strand
    | Mark
    | Crash(keep: nat, torn: bool, flushed: nat, revert: bool, shown: nat)
    | Start

  // ---------------------------------------------------------------- recovery

  /** Where in the log a snapshot's replay begins. */
  function ReplayOffset<S, R>(snap: Snapshot<S>, log: File<R>): Option<nat> {
    if log.generation == snap.generation then
      if snap.offset > |log.tokens| then None else Some(snap.offset)
    else if log.generation == snap.generation + 1 then Some(0)
    else None
  }

  predicate IsBoundary<R>(tokens: seq<Token<R>>, offset: nat)
    requires offset <= |tokens|
  {
    offset == 0 || tokens[offset - 1].NL?
  }

  function ReadFrom<R>(fits: R -> bool, log: File<R>, offset: nat): Option<seq<R>> {
    if offset > |log.tokens| then None
    else if !IsBoundary(log.tokens, offset) then None
    else ReadLines(fits, log.tokens[offset..], log.torn)
  }

  function ReplayFrom<S, R>(sys: System<S, R>, start: S, log: File<R>, offset: nat): Option<S> {
    match ReadFrom(sys.fits, log, offset)
    case None => None
    case Some(records) => Replay(sys, start, records)
  }

  /** Start-up: restore the newest snapshot, then replay the log from where it says. */
  function Recover<S, R>(sys: System<S, R>, disk: Disk<S, R>): Option<S> {
    if disk.snaps == [] then ReplayFrom(sys, sys.init, disk.log, 0)
    else
      var snap := disk.snaps[|disk.snaps| - 1];
      match ReplayOffset(snap, disk.log)
      case None => None
      case Some(offset) => ReplayFrom(sys, snap.state, disk.log, offset)
  }

  /** The start-up loop: the records read are applied one after the other, up to a failure. */
  method RecoverSessions<S, R>(sys: System<S, R>, disk: Disk<S, R>) returns (r: Option<S>)
    ensures r == Recover(sys, disk)
  {
    var state, offset := sys.init, 0;
    if disk.snaps != [] {
      var snap := disk.snaps[|disk.snaps| - 1];
      match ReplayOffset(snap, disk.log) {
        case None => return None;
        case Some(o) => state, offset := snap.state, o;
      }
    }
    var read := ReadFrom(sys.fits, disk.log, offset);
    if read.None? {
      return None;
    }
    var records := read.value;
    ghost var restored := state;
    for i := 0 to |records|
      invariant Replay(sys, restored, records[..i]) == Some(state)
    {
      assert records[..i + 1][..i] == records[..i];
      var next := sys.apply(state, records[i]);
      if next.None? {
        FailsFrom(sys, restored, records, i + 1);
        return None;
      }
      state := next.value;
    }
    assert records[..|records|] == records;
    return Some(state);
  }

  /** Once a record does not apply, nor does any longer sequence. */
  lemma {:induction false} FailsFrom<S, R>(sys: System<S, R>, start: S, records: seq<R>, n: nat)
    requires n <= |records| && Replay(sys, start, records[..n]).None?
    ensures Replay(sys, start, records).None?
    decreases |records|
  {
    if n == |records| {
      assert records[..n] == records;
    } else {
      assert records[..|records| - 1][..n] == records[..n];
      FailsFrom(sys, start, records[..|records| - 1], n);
    }
  }

  // ---------------------------------------------------------------- steps

  /** The file the process writes to; after a crash, the one the path names. */
  function Live<S, R>(d: Disk<S, R>): File<R> {
    if d.prior.Some? then d.prior.value else d.log
  }

  function Put<S, R>(d: Disk<S, R>, f: File<R>): Disk<S, R> {
    if d.prior.Some? then d.(prior := Some(f)) else d.(log := f)
  }

  function WithTokens<S, R>(d: Disk<S, R>, more: seq<Token<R>>, torn: bool): Disk<S, R> {
    Put(d, Live(d).(tokens := Live(d).tokens + more, torn := torn))
  }

  function Flushed<S, R>(d: Disk<S, R>): Disk<S, R> {
    Put(d, Live(d).(flushed := |Live(d).tokens|))
  }

  function Line<R>(r: R): seq<Token<R>> {
    [Rec(r), NL]
  }

  /** The file after a crash that kept `keep` tokens, and part of the next if `torn`. */
  function Cut<R>(f: File<R>, keep: nat, torn: bool, flushed: nat): File<R>
    requires keep <= |f.tokens|
  {
    File(f.generation, f.tokens[..keep], torn, flushed)
  }

  predicate CutAllowed<R>(f: File<R>, keep: nat, torn: bool, flushed: nat) {
    && f.flushed <= flushed <= keep <= |f.tokens|
    && (torn ==> if keep == |f.tokens| then f.torn else f.tokens[keep].Rec?)
  }

  /** The file the path names once the crash has decided the fate of an unsynced rename. */
  function Surviving<S, R>(d: Disk<S, R>, revert: bool): File<R> {
    if revert && d.prior.Some? then d.prior.value else d.log
  }

  predicate Ready<S, R>(s: State<S, R>) {
    s.proc.Some? && s.proc.value.phase.Idle? && !s.proc.value.failed && !s.proc.value.mark.Marked?
  }

  /** Whether a step can be taken. `everyWrite` is the sync policy that syncs before it applies. */
  predicate Enabled<S, R>(sys: System<S, R>, everyWrite: bool, s: State<S, R>, a: Action<R>) {
    match a
    case Write(r) => Ready(s) && s.proc.value.open
    case WriteFails(r, kept, torn) =>
      Ready(s) && (s.proc.value.open || (kept == 0 && !torn)) && kept <= 2 && (torn ==> kept == 0)
    case Sync => s.proc.Some? && s.proc.value.open
    case SyncFails => s.proc.Some? && s.proc.value.phase.Written?
    case Apply => s.proc.Some? && s.proc.value.phase.Written?
      && (everyWrite ==> Live(s.disk).flushed == |Live(s.disk).tokens|)
    case Begin(auto, truncate) => Ready(s) && s.proc.value.open && (auto ==> truncate)
    case BeginFails(auto) => Ready(s)
    case Show => s.proc.Some? && s.proc.value.phase.Captured?
    case Secure => s.proc.Some? && s.proc.value.phase.Shown?
    case Swap => s.proc.Some? && s.proc.value.phase.Truncating?
    case Settle => s.proc.Some? && s.proc.value.phase.Swapped?
    case Reopen => s.proc.Some? && s.proc.value.phase.Settled?
    case Abandon => s.proc.Some? && !s.proc.value.phase.Idle? && !s.proc.value.phase.Written?
    case Strand => s.proc.Some? && s.proc.value.phase.Settled?
    case Mark => s.proc.Some? && s.proc.value.mark.Due?
    case Crash(keep, torn, flushed, revert, shown) =>
      && s.disk.durable <= shown <= |s.disk.snaps| && shown <= |s.trace.covers|
      && (revert ==> s.disk.revertible)
      && CutAllowed(Surviving(s.disk, revert), keep, torn, flushed)
      && (s.disk.prior.Some? && !revert ==> 0 < shown)
    case Start => s.proc.None? && Recover(sys, s.disk).Some?
  }

  function WithPhase<S, R>(s: State<S, R>, phase: Phase<S, R>): State<S, R>
    requires s.proc.Some?
  {
    s.(proc := Some(s.proc.value.(phase := phase)))
  }

  /** The mutation under way fails and marks the store unhealthy. */
  function Failed<S, R>(s: State<S, R>): State<S, R>
    requires s.proc.Some?
  {
    s.(proc := Some(s.proc.value.(phase := Idle, failed := true)))
  }

  /** What a failed snapshot leaves to its caller: nothing, or to mark the store unhealthy. */
  function Owed(mark: Mark, auto: bool): Mark {
    if auto && mark.Unmarked? then Due else mark
  }

  /** The snapshot under way fails and releases the lock. */
  function Dropped<S, R>(s: State<S, R>, auto: bool): State<S, R>
    requires s.proc.Some?
  {
    s.(proc := Some(s.proc.value.(phase := Idle, mark := Owed(s.proc.value.mark, auto))))
  }

  function Grown<R>(t: Trace<R>, more: seq<R>): Trace<R> {
    t.(history := t.history + more)
  }

  function ApplyStep<S, R>(sys: System<S, R>, s: State<S, R>): State<S, R>
    requires s.proc.Some? && s.proc.value.phase.Written?
  {
    var p := s.proc.value;
    match sys.apply(p.state, p.phase.record)
    case None => Failed(s)
    case Some(state) =>
      State(s.disk, Some(p.(state := state, phase := Idle)),
            s.trace.(acked := |s.trace.history|, done := s.trace.done + [p.phase.record]))
  }

  /** Sync, take the position, capture the sessions. */
  function BeginStep<S, R>(s: State<S, R>, auto: bool, truncate: bool): State<S, R>
    requires Ready(s)
  {
    var p := s.proc.value;
    var snap := Snapshot(p.generation, |Live(s.disk).tokens|, p.state);
    State(Flushed(s.disk), Some(p.(phase := Captured(auto, truncate, snap))), s.trace)
  }

  /** The snapshot, already synced under a temporary name, gets its own name. */
  function ShowStep<S, R>(s: State<S, R>): State<S, R>
    requires s.proc.Some? && s.proc.value.phase.Captured?
  {
    var p := s.proc.value;
    State(s.disk.(snaps := s.disk.snaps + [p.phase.snap]),
          Some(p.(phase := Shown(p.phase.auto, p.phase.truncate))),
          s.trace.(covers := s.trace.covers + [|s.trace.history|]))
  }

  /** The snapshot directory is synced. */
  function SecureStep<S, R>(s: State<S, R>): State<S, R>
    requires s.proc.Some? && s.proc.value.phase.Shown?
  {
    var p := s.proc.value;
    State(s.disk.(durable := |s.disk.snaps|),
          Some(p.(phase := if p.phase.truncate then Truncating(p.phase.auto) else Idle)), s.trace)
  }

  /** An empty file of the next generation, already synced, is renamed over the log. */
  function SwapStep<S, R>(s: State<S, R>): State<S, R>
    requires s.proc.Some? && s.proc.value.phase.Truncating?
  {
    var p := s.proc.value;
    var d := s.disk.(log := File(p.generation + 1, [], false, 0), prior := Some(Live(s.disk)),
                     revertible := s.disk.prior.Some? ==> s.disk.revertible);
    State(d, Some(p.(phase := Swapped(p.phase.auto))), s.trace)
  }

  /** The directory of the log is synced. */
  function SettleStep<S, R>(s: State<S, R>): State<S, R>
    requires s.proc.Some? && s.proc.value.phase.Swapped?
  {
    State(s.disk.(revertible := false), Some(s.proc.value.(phase := Settled(s.proc.value.phase.auto))), s.trace)
  }

  /** The old file is closed and the new one opened; or not (`ok` false), and no file is left. */
  function ReopenStep<S, R>(s: State<S, R>, ok: bool): State<S, R>
    requires s.proc.Some? && s.proc.value.phase.Settled?
  {
    var p := s.proc.value;
    var q := p.(generation := if ok then p.generation + 1 else p.generation, open := ok,
                mark := Owed(p.mark, !ok && p.phase.auto), phase := Idle);
    State(s.disk.(prior := None, revertible := false), Some(q), s.trace.(start := |s.trace.history|))
  }

  /** How many records the line of history the disk continues still has after a crash. */
  function Remaining<S, R>(s: State<S, R>, keep: nat, revert: bool, shown: nat): nat
    requires keep <= |Surviving(s.disk, revert).tokens| && shown <= |s.trace.covers|
    requires s.disk.prior.Some? && !revert ==> 0 < shown
  {
    if s.disk.prior.Some? && !revert then s.trace.covers[shown - 1]
    else s.trace.start + |Recs(Surviving(s.disk, revert).tokens[..keep])|
  }

  function Upto<T>(s: seq<T>, n: nat): seq<T> {
    if n <= |s| then s[..n] else s
  }

  function Least(a: nat, b: nat): nat {
    if a <= b then a else b
  }

  function CrashStep<S, R>(s: State<S, R>, keep: nat, torn: bool, flushed: nat, revert: bool,
                           shown: nat): State<S, R>
    requires keep <= |Surviving(s.disk, revert).tokens|
    requires shown <= |s.disk.snaps| && shown <= |s.trace.covers|
    requires s.disk.prior.Some? && !revert ==> 0 < shown
  {
    var left := Remaining(s, keep, revert, shown);
    var start := if s.disk.prior.Some? && !revert then left else s.trace.start;
    State(Disk(Cut(Surviving(s.disk, revert), keep, torn, flushed), None, false, s.disk.snaps[..shown], shown),
          None,
          Trace(Upto(s.trace.history, left), start, s.trace.covers[..shown], Least(s.trace.acked, left), 0, []))
  }

  function StartStep<S, R>(sys: System<S, R>, s: State<S, R>): State<S, R>
    requires s.proc.None? && Recover(sys, s.disk).Some?
  {
    State(s.disk, Some(Proc(s.disk.log.generation, true, Recover(sys, s.disk).value, false, Unmarked, Idle)),
          s.trace.(began := |s.trace.history|, done := []))
  }

  function Do<S, R>(sys: System<S, R>, everyWrite: bool, s: State<S, R>, a: Action<R>): State<S, R>
    requires Enabled(sys, everyWrite, s, a)
  {
    match a
    case Write(r) =>
      State(WithTokens(s.disk, Line(r), Live(s.disk).torn), WithPhase(s, Written(r)).proc, Grown(s.trace, [r]))
    case WriteFails(r, kept, torn) =>
      State(WithTokens(s.disk, Line(r)[..kept], torn), Failed(s).proc,
            Grown(s.trace, if kept == 0 then [] else [r]))
    case Sync => s.(disk := Flushed(s.disk))
    case SyncFails => Failed(s)
    case Apply => ApplyStep(sys, s)
    case Begin(auto, truncate) => BeginStep(s, auto, truncate)
    case BeginFails(auto) => Dropped(s, auto)
    case Show => ShowStep(s)
    case Secure => SecureStep(s)
    case Swap => SwapStep(s)
    case Settle => SettleStep(s)
    case Reopen => ReopenStep(s, true)
    case Abandon => Dropped(s, s.proc.value.phase.auto)
    case Strand => ReopenStep(s, false)
    case Mark => s.(proc := Some(s.proc.value.(mark := Marked)))
    case Crash(keep, torn, flushed, revert, shown) =>
      CrashStep(s, keep, torn, flushed, revert, shown)
    case Start => StartStep(sys, s)
  }

  /** A fresh store: an empty log of generation 1, no snapshot, no process. */
  function Fresh<S, R>(): State<S, R> {
    State(Disk(File(1, [], false, 0), None, false, [], 0), None, Trace([], 0, [], 0, 0, []))
  }

  /** Where a sequence of steps leads, if each can be taken. */
  function Run<S, R>(sys: System<S, R>, everyWrite: bool, s: State<S, R>, run: seq<Action<R>>): Option<State<S, R>>
    decreases |run|
  {
    if run == [] then Some(s)
    else if Enabled(sys, everyWrite, s, run[0]) then Run(sys, everyWrite, Do(sys, everyWrite, s, run[0]), run[1..])
    else None
  }
}
