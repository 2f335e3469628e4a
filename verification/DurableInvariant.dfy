/** What every step of the durable store's protocol keeps, crashes included. */
module DurableInvariant {

  import opened Wrappers
  import opened DurableLog
  import opened DurableProtocol

  /** The file holds exactly the records of the history from `start` on. */
  ghost predicate FileOk<R>(f: File<R>, start: nat, history: seq<R>) {
    start <= |history| && f.flushed <= |f.tokens| && Recs(f.tokens) == history[start..]
  }

  /** The snapshot holds the effects of a prefix of the history. */
  ghost predicate Covers<S, R>(sys: System<S, R>, snap: Snapshot<S>, covers: nat, history: seq<R>) {
    covers <= |history| && After(sys, history[..covers]) == Some(snap.state)
  }

  /**
   A snapshot's generation is the file's and its offset lies in the flushed part, just after
   the records it covers; or its generation is one behind and it covers all before the file.
   */
  ghost predicate Places<S, R>(snap: Snapshot<S>, covers: nat, f: File<R>, start: nat) {
    || (snap.generation == f.generation && snap.offset <= f.flushed <= |f.tokens|
        && covers == start + |Recs(f.tokens[..snap.offset])|)
    || (snap.generation + 1 == f.generation && covers == start)
  }

  /** Every snapshot that may be the newest after a crash fits the file. */
  ghost predicate SnapsOk<S, R>(sys: System<S, R>, snaps: seq<Snapshot<S>>, durable: nat, f: File<R>, t: Trace<R>) {
    && |t.covers| == |snaps| && durable <= |snaps|
    && (durable == 0 ==> t.start == 0)
    && (forall i :: 0 <= i < |snaps| && durable - 1 <= i ==>
          Covers(sys, snaps[i], t.covers[i], t.history) && Places(snaps[i], t.covers[i], f, t.start))
  }

  /** A file renamed over but still written to is one generation behind an empty file. */
  ghost predicate PriorOk<S, R>(d: Disk<S, R>) {
    && (d.revertible ==> d.prior.Some?)
    && (d.prior.Some? ==>
          && d.log == File(d.prior.value.generation + 1, [], false, 0)
          && 0 < d.durable
          && forall i :: 0 <= i < |d.snaps| && d.durable - 1 <= i ==>
               d.snaps[i].generation == d.prior.value.generation)
  }

  ghost predicate DiskOk<S, R>(sys: System<S, R>, d: Disk<S, R>, t: Trace<R>) {
    && FileOk(Live(d), t.start, t.history)
    && SnapsOk(sys, d.snaps, d.durable, Live(d), t)
    && PriorOk(d)
  }

  /** The newest snapshot was just taken: it covers the whole history. */
  ghost predicate JustTaken<S, R>(d: Disk<S, R>, p: Proc<S, R>, t: Trace<R>) {
    && 0 < |d.snaps| == |t.covers|
    && t.covers[|d.snaps| - 1] == |t.history|
    && d.snaps[|d.snaps| - 1].generation == p.generation
  }

  ghost predicate PhaseOk<S, R>(sys: System<S, R>, d: Disk<S, R>, p: Proc<S, R>, t: Trace<R>) {
    match p.phase
    case Idle => true
    case Written(r) => true
    case Captured(auto, truncate, snap) =>
      && snap.generation == p.generation
      && snap.offset == |Live(d).tokens| == Live(d).flushed
      && After(sys, t.history) == Some(snap.state)
    case Shown(auto, truncate) => JustTaken(d, p, t)
    case Truncating(auto) => JustTaken(d, p, t) && d.durable == |d.snaps|
    case Swapped(auto) => JustTaken(d, p, t) && d.durable == |d.snaps| && d.prior.Some?
    case Settled(auto) => JustTaken(d, p, t) && d.durable == |d.snaps| && d.prior.Some?
  }

  /** While no mutation has failed, the state is the effects of the whole history, bar the record being applied. */
  ghost predicate StateOk<S, R>(sys: System<S, R>, p: Proc<S, R>, history: seq<R>) {
    !p.failed ==>
      if p.phase.Written? then
        0 < |history| && history[|history| - 1] == p.phase.record
        && After(sys, history[..|history| - 1]) == Some(p.state)
      else After(sys, history) == Some(p.state)
  }

  /** The history since the process opened is what it acknowledged, then at most one more record. */
  ghost predicate DoneOk<S, R>(p: Proc<S, R>, t: Trace<R>) {
    && t.began + |t.done| <= |t.history| <= t.began + |t.done| + 1
    && t.done == t.history[t.began..t.began + |t.done|]
    && (!p.failed ==> |t.history| == t.began + |t.done| + if p.phase.Written? then 1 else 0)
  }

  ghost predicate ProcOk<S, R>(sys: System<S, R>, d: Disk<S, R>, p: Proc<S, R>, t: Trace<R>) {
    && (p.open ==> p.generation == Live(d).generation)
    && (d.prior.Some? ==> p.open)
    && (!p.phase.Idle? ==> p.open && !p.failed)
    && (!p.failed ==> !Live(d).torn)
    && StateOk(sys, p, t.history)
    && PhaseOk(sys, d, p, t)
    && DoneOk(p, t)
  }

  /** Under `every_write`, what was acknowledged is in the flushed part. */
  ghost predicate AckOk<R>(everyWrite: bool, f: File<R>, t: Trace<R>) {
    && t.acked <= |t.history|
    && f.flushed <= |f.tokens|
    && (everyWrite ==> t.acked <= t.start + |Recs(f.tokens[..f.flushed])|)
  }

  ghost predicate Inv<S, R>(sys: System<S, R>, everyWrite: bool, s: State<S, R>) {
    && DiskOk(sys, s.disk, s.trace)
    && AckOk(everyWrite, Live(s.disk), s.trace)
    && (s.proc.None? ==> s.disk.prior.None?)
    && (s.proc.Some? ==> ProcOk(sys, s.disk, s.proc.value, s.trace))
  }

  // ---------------------------------------------------------------- growing, flushing, cutting

  lemma PrefixRecs<R>(f: File<R>, more: seq<Token<R>>, k: nat)
    requires k <= |f.tokens|
    ensures (f.tokens + more)[..k] == f.tokens[..k]
  {
  }

  lemma GrowKeepsSnap<S, R>(sys: System<S, R>, snap: Snapshot<S>, covers: nat, f: File<R>, t: Trace<R>,
                            more: seq<Token<R>>, torn: bool)
    requires Covers(sys, snap, covers, t.history) && Places(snap, covers, f, t.start)
    ensures Covers(sys, snap, covers, Grown(t, Recs(more)).history)
    ensures Places(snap, covers, f.(tokens := f.tokens + more, torn := torn), t.start)
  {
    assert Grown(t, Recs(more)).history[..covers] == t.history[..covers];
    if snap.generation == f.generation && snap.offset <= f.flushed <= |f.tokens| {
      PrefixRecs(f, more, snap.offset);
    }
  }

  /** Writing at the end of the file keeps every snapshot in place. */
  lemma GrowKeepsDisk<S, R>(sys: System<S, R>, d: Disk<S, R>, t: Trace<R>, more: seq<Token<R>>, torn: bool)
    requires DiskOk(sys, d, t)
    ensures DiskOk(sys, WithTokens(d, more, torn), Grown(t, Recs(more)))
    ensures Live(WithTokens(d, more, torn)) == Live(d).(tokens := Live(d).tokens + more, torn := torn)
  {
    var f := Live(d);
    var u := Grown(t, Recs(more));
    var g := f.(tokens := f.tokens + more, torn := torn);
    RecsConcat(f.tokens, more);
    assert u.history[u.start..] == t.history[t.start..] + Recs(more);
    forall i | 0 <= i < |d.snaps| && d.durable - 1 <= i
      ensures Covers(sys, d.snaps[i], u.covers[i], u.history) && Places(d.snaps[i], u.covers[i], g, u.start)
    {
      GrowKeepsSnap(sys, d.snaps[i], t.covers[i], f, t, more, torn);
    }
  }

  lemma GrowKeepsAck<R>(everyWrite: bool, f: File<R>, t: Trace<R>, more: seq<Token<R>>, torn: bool, r: seq<R>)
    requires AckOk(everyWrite, f, t)
    ensures AckOk(everyWrite, f.(tokens := f.tokens + more, torn := torn), Grown(t, r))
  {
    PrefixRecs(f, more, f.flushed);
  }

  lemma FlushKeeps<S, R>(sys: System<S, R>, everyWrite: bool, d: Disk<S, R>, t: Trace<R>)
    requires DiskOk(sys, d, t) && AckOk(everyWrite, Live(d), t)
    ensures DiskOk(sys, Flushed(d), t) && AckOk(everyWrite, Live(Flushed(d)), t)
    ensures Live(Flushed(d)) == Live(d).(flushed := |Live(d).tokens|)
  {
    var f := Live(d);
    var g := f.(flushed := |f.tokens|);
    RecsPrefix(f.tokens, f.flushed);
    assert f.tokens[..|f.tokens|] == f.tokens;
    forall i | 0 <= i < |d.snaps| && d.durable - 1 <= i
      ensures Places(d.snaps[i], t.covers[i], g, t.start)
    {
      assert Covers(sys, d.snaps[i], t.covers[i], t.history) && Places(d.snaps[i], t.covers[i], f, t.start);
    }
  }

  /** A crash that keeps the flushed part keeps every snapshot in place. */
  lemma CutKeeps<S, R>(sys: System<S, R>, snaps: seq<Snapshot<S>>, durable: nat, f: File<R>, t: Trace<R>,
                       keep: nat, torn: bool, flushed: nat, left: nat)
    requires FileOk(f, t.start, t.history) && SnapsOk(sys, snaps, durable, f, t)
    requires f.flushed <= flushed <= keep <= |f.tokens|
    requires left == t.start + |Recs(f.tokens[..keep])|
    ensures left <= |t.history|
    ensures FileOk(Cut(f, keep, torn, flushed), t.start, t.history[..left])
    ensures SnapsOk(sys, snaps, durable, Cut(f, keep, torn, flushed), t.(history := t.history[..left]))
  {
    RecsPrefix(f.tokens, keep);
    var g := Cut(f, keep, torn, flushed);
    var kept := t.history[..left];
    assert kept[t.start..] == t.history[t.start..][..left - t.start];
    forall i | 0 <= i < |snaps| && durable - 1 <= i
      ensures Covers(sys, snaps[i], t.covers[i], kept) && Places(snaps[i], t.covers[i], g, t.start)
    {
      assert Covers(sys, snaps[i], t.covers[i], t.history) && Places(snaps[i], t.covers[i], f, t.start);
      if snaps[i].generation == f.generation && snaps[i].offset <= f.flushed
        && t.covers[i] == t.start + |Recs(f.tokens[..snaps[i].offset])| {
        assert g.tokens[..snaps[i].offset] == f.tokens[..snaps[i].offset];
        RecsPrefix(g.tokens, snaps[i].offset);
      }
      assert kept[..t.covers[i]] == t.history[..t.covers[i]];
    }
  }

}
