/** Concrete runs, all under `every_write`, in which the store does not keep its promise. */
module DurableFindings {

  import opened Wrappers
  import opened DurableLog
  import opened DurableProtocol
  import opened DurableSafety
  import opened DurableRuns

  /** A list of numbers: a record adds one, and a number of three digits is too long to be read back. */
  function Numbers(): System<seq<nat>, nat> {
    System([], (s: seq<nat>, r: nat) => Some(s + [r]), (r: nat) => r < 100)
  }

  lemma {:induction false} RunConcat<S, R>(sys: System<S, R>, everyWrite: bool, s: State<S, R>, run: seq<Action<R>>,
                                           a: Action<R>)
    requires Run(sys, everyWrite, s, run).Some?
    requires Enabled(sys, everyWrite, Run(sys, everyWrite, s, run).value, a)
    ensures Run(sys, everyWrite, s, run + [a]) == Some(Do(sys, everyWrite, Run(sys, everyWrite, s, run).value, a))
    decreases |run|
  {
    if run == [] {
    } else {
      assert (run + [a])[1..] == run[1..] + [a];
      RunConcat(sys, everyWrite, Do(sys, everyWrite, s, run[0]), run[1..], a);
    }
  }

  /** One more step of a run. */
  lemma Then<S, R>(sys: System<S, R>, run: seq<Action<R>>, s: State<S, R>, a: Action<R>)
      returns (longer: seq<Action<R>>, t: State<S, R>)
    requires Leads(sys, true, run, s) && Enabled(sys, true, s, a)
    ensures longer == run + [a] && t == Do(sys, true, s, a) && Leads(sys, true, longer, t)
  {
    longer, t := run + [a], Do(sys, true, s, a);
    RunConcat(sys, true, Fresh(), run, a);
  }

  type Store = State<seq<nat>, nat>

  /** A process that has just opened a fresh store. */
  function Opened(): Store {
    Fresh().(proc := Some(Proc(1, true, [], false, Unmarked, Idle)))
  }

  lemma Opening() returns (run: seq<Action<nat>>)
    ensures run == [Start] && Leads(Numbers(), true, run, Opened())
  {
    run := [];
    var s: Store := Fresh();
    run, s := Then(Numbers(), run, s, Start);
  }

  /** The state after one record has been acknowledged and a snapshot has covered it. */
  function Covered(auto: bool): Store {
    var log := File(1, [Rec(1), NL], false, 2);
    State(Disk(log, None, false, [Snapshot(1, 2, [1])], 1),
          Some(Proc(1, true, [1], false, Unmarked, Truncating(auto))),
          Trace([1], 0, [1], 1, 0, [1]))
  }

  lemma Covering(auto: bool) returns (run: seq<Action<nat>>)
    ensures Leads(Numbers(), true, run, Covered(auto))
    ensures auto ==> AutoOnly(run)
  {
    var s := Opened();
    run := Opening();
    run, s := Then(Numbers(), run, s, Write(1));
    run, s := Then(Numbers(), run, s, Sync);
    assert s.disk.log == File(1, [Rec(1), NL], false, 2);
    run, s := Then(Numbers(), run, s, Apply);
    run, s := Then(Numbers(), run, s, Begin(auto, true));
    run, s := Then(Numbers(), run, s, Show);
    run, s := Then(Numbers(), run, s, Secure);
    assert s.trace.covers == [1] && s.disk.snaps == [Snapshot(1, 2, [1])];
  }

  /** The state after the truncation that follows has failed past its rename. */
  function Detached(auto: bool): Store {
    var log := File(1, [Rec(1), NL], false, 2);
    State(Disk(File(2, [], false, 0), Some(log), true, [Snapshot(1, 2, [1])], 1),
          Some(Proc(1, true, [1], false, if auto then Due else Unmarked, Idle)),
          Trace([1], 0, [1], 1, 0, [1]))
  }

  lemma Detaching(auto: bool) returns (run: seq<Action<nat>>)
    ensures Leads(Numbers(), true, run, Detached(auto))
    ensures auto ==> AutoOnly(run)
  {
    var s := Covered(auto);
    run := Covering(auto);
    run, s := Then(Numbers(), run, s, Swap);
    run, s := Then(Numbers(), run, s, Abandon);
  }

  /**
   A snapshot's truncation fails after its rename; the store is still healthy and acknowledges
   a second record into the file without a name; the crash loses it, and recovery reports
   success. A store that was asked for the snapshot stays healthy; after an automatic one
   (`auto`) the record slips in before the mark.
   */
  lemma AcknowledgedThenLost(auto: bool) returns (run: seq<Action<nat>>, s: Store, t: Store)
    ensures Leads(Numbers(), true, run, s) && (auto ==> AutoOnly(run))
    ensures s.trace.history == [1, 2] && s.trace.acked == 2 && Ready(s)
    ensures Enabled(Numbers(), true, s, Crash(0, false, 0, false, 1))
    ensures t == CrashStep(s, 0, false, 0, false, 1) && Recover(Numbers(), t.disk) == Some([1])
  {
    s := Detached(auto);
    run := Detaching(auto);
    run, s := Then(Numbers(), run, s, Write(2));
    run, s := Then(Numbers(), run, s, Sync);
    run, s := Then(Numbers(), run, s, Apply);
    t := CrashStep(s, 0, false, 0, false, 1);
  }

  /** The state after a crash that kept a first record but not its newline, and a restart. */
  function MidLine(): Store {
    State(Disk(File(1, [Rec(1)], false, 1), None, false, [], 0),
          Some(Proc(1, true, [1], false, Unmarked, Idle)),
          Trace([1], 0, [], 0, 1, []))
  }

  lemma StartingMidLine() returns (run: seq<Action<nat>>)
    ensures Leads(Numbers(), true, run, MidLine())
  {
    var s := Opened();
    run := Opening();
    run, s := Then(Numbers(), run, s, Write(1));
    RecsOfLine(1);
    run, s := Then(Numbers(), run, s, Crash(1, false, 1, false, 0));
    assert s.disk.log.tokens[0..] == [Rec(1)];
    run, s := Then(Numbers(), run, s, Start);
  }

  /**
   The next record is acknowledged, but on the same line as the first: with nothing lost in
   the crash that follows, recovery refuses.
   */
  lemma AcknowledgedThenRefused() returns (run: seq<Action<nat>>, s: Store, t: Store)
    ensures Leads(Numbers(), true, run, s)
    ensures s.trace.history == [1, 2] && s.trace.acked == 2 && Ready(s)
    ensures Enabled(Numbers(), true, s, Crash(3, false, 3, false, 0))
    ensures t == CrashStep(s, 3, false, 3, false, 0) && Recover(Numbers(), t.disk).None?
  {
    s := MidLine();
    run := StartingMidLine();
    run, s := Then(Numbers(), run, s, Write(2));
    run, s := Then(Numbers(), run, s, Sync);
    run, s := Then(Numbers(), run, s, Apply);
    t := CrashStep(s, 3, false, 3, false, 0);
  }

  /** A snapshot taken there, without truncation, records a position that is not a line start. */
  lemma SnapshotThenRefused() returns (run: seq<Action<nat>>, s: Store, t: Store)
    ensures Leads(Numbers(), true, run, s) && Ready(s)
    ensures Enabled(Numbers(), true, s, Crash(1, false, 1, false, 1))
    ensures t == CrashStep(s, 1, false, 1, false, 1) && Recover(Numbers(), t.disk).None?
  {
    s := MidLine();
    run := StartingMidLine();
    run, s := Then(Numbers(), run, s, Begin(false, false));
    run, s := Then(Numbers(), run, s, Show);
    run, s := Then(Numbers(), run, s, Secure);
    t := CrashStep(s, 1, false, 1, false, 1);
  }

  /**
   A record too long to be read back is acknowledged: recovery refuses, though the log was
   found at a line end, the record applied, and nothing is torn.
   */
  lemma TooLongThenRefused() returns (run: seq<Action<nat>>, s: Store, t: Store)
    ensures run == [Start, Write(100), Sync, Apply] && Leads(Numbers(), true, run, s)
    ensures s.trace.history == [100] && s.trace.acked == 1 && Ready(s)
    ensures Enabled(Numbers(), true, s, Crash(2, false, 2, false, 0))
    ensures t == CrashStep(s, 2, false, 2, false, 0) && !t.disk.log.torn
    ensures Recover(Numbers(), t.disk).None?
  {
    s := Opened();
    run := Opening();
    run, s := Then(Numbers(), run, s, Write(100));
    run, s := Then(Numbers(), run, s, Sync);
    run, s := Then(Numbers(), run, s, Apply);
    t := CrashStep(s, 2, false, 2, false, 0);
    var line: seq<Token<nat>> := [Rec(100), NL];
    assert t.disk.log.tokens[0..] == line && ReadLines(Numbers().fits, line, false).None?;
  }
}
