/**
 The write-ahead log at the level of tokens: a record's encoding, or the newline that
 ends its line. A crash can cut the file anywhere after the flushed part, so between a
 record and its newline, or inside a record.
 */
module DurableLog {

  import opened Wrappers

  datatype Token<R> = Rec(record: R) | NL

  /**
   The system being logged: its initial state, the effect of a record, if it applies, and
   which records have a line short enough to be read back.
   */
  datatype System<!S, !R> = System(init: S, apply: (S, R) -> Option<S>, fits: R -> bool)

  /** In-order application; nothing if some record does not apply. */
  function Replay<S, R>(sys: System<S, R>, start: S, records: seq<R>): Option<S> {
    if records == [] then Some(start)
    else
      match Replay(sys, start, records[..|records| - 1])
      case None => None
      case Some(s) => sys.apply(s, records[|records| - 1])
  }

  ghost function After<S, R>(sys: System<S, R>, records: seq<R>): Option<S> {
    Replay(sys, sys.init, records)
  }

  /** Replaying in two stretches is replaying the whole. */
  lemma {:induction false} ReplayConcat<S, R>(sys: System<S, R>, start: S, a: seq<R>, b: seq<R>, mid: S)
    requires Replay(sys, start, a) == Some(mid)
    ensures Replay(sys, start, a + b) == Replay(sys, mid, b)
    decreases |b|
  {
    if b == [] {
      assert a + b == a;
    } else {
      var n := |b| - 1;
      assert (a + b)[..|a + b| - 1] == a + b[..n];
      ReplayConcat(sys, start, a, b[..n], mid);
    }
  }

  /** The records of a token sequence, in order. */
  function Recs<R>(tokens: seq<Token<R>>): seq<R> {
    if tokens == [] then []
    else Recs(tokens[..|tokens| - 1]) + match tokens[|tokens| - 1] case Rec(r) => [r] case NL => []
  }

  lemma {:induction false} RecsConcat<R>(a: seq<Token<R>>, b: seq<Token<R>>)
    ensures Recs(a + b) == Recs(a) + Recs(b)
    decreases |b|
  {
    if b == [] {
      assert a + b == a;
    } else {
      var n := |b| - 1;
      assert (a + b)[..|a + b| - 1] == a + b[..n];
      RecsConcat(a, b[..n]);
    }
  }

  lemma RecsPrefix<R>(tokens: seq<Token<R>>, k: nat)
    requires k <= |tokens|
    ensures Recs(tokens) == Recs(tokens[..k]) + Recs(tokens[k..])
    ensures Recs(tokens[..k]) <= Recs(tokens)
  {
    assert tokens == tokens[..k] + tokens[k..];
    RecsConcat(tokens[..k], tokens[k..]);
  }

  lemma RecsOfLine<R>(r: R)
    ensures Recs([Rec(r)]) == [r] && Recs([Rec(r), NL]) == [r]
  {
  }

  /**
   The line scanner: every line must be short enough and decode as one record. The last line
   may lack its newline; an empty line, two records on a line or a torn record do not decode.
   */
  function ReadLines<R>(fits: R -> bool, tokens: seq<Token<R>>, torn: bool): Option<seq<R>>
    decreases |tokens|
  {
    if tokens == [] then if torn then None else Some([])
    else if tokens[0].NL? || !fits(tokens[0].record) then None
    else if |tokens| == 1 then if torn then None else Some([tokens[0].record])
    else if tokens[1].Rec? then None
    else
      match ReadLines(fits, tokens[2..], torn)
      case None => None
      case Some(rest) => Some([tokens[0].record] + rest)
  }

  /** What is read is all there is, in order. */
  lemma {:induction false} ReadLinesSound<R>(fits: R -> bool, tokens: seq<Token<R>>, torn: bool)
    requires ReadLines(fits, tokens, torn).Some?
    ensures !torn && ReadLines(fits, tokens, torn).value == Recs(tokens)
    decreases |tokens|
  {
    if |tokens| >= 2 {
      ReadLinesSound(fits, tokens[2..], torn);
      RecsPrefix(tokens, 2);
      RecsOfLine(tokens[0].record);
    }
  }

  ghost predicate AllFit<R>(fits: R -> bool, tokens: seq<Token<R>>) {
    forall i :: 0 <= i < |tokens| && tokens[i].Rec? ==> fits(tokens[i].record)
  }

  ghost predicate EndsLine<R>(tokens: seq<Token<R>>) {
    tokens == [] || tokens[|tokens| - 1].NL?
  }

  /** Records each followed by their newline. */
  ghost predicate Lined<R>(tokens: seq<Token<R>>)
    decreases |tokens|
  {
    tokens == [] || (|tokens| >= 2 && tokens[0].Rec? && tokens[1].NL? && Lined(tokens[2..]))
  }

  lemma {:induction false} LinedAppend<R>(tokens: seq<Token<R>>, more: seq<Token<R>>)
    requires Lined(tokens)
    ensures Lined(tokens + more) <==> Lined(more)
    decreases |tokens|
  {
    if tokens == [] {
      assert tokens + more == more;
    } else {
      assert (tokens + more)[2..] == tokens[2..] + more;
      LinedAppend(tokens[2..], more);
    }
  }

  /** A cut of a lined file just after a newline (or at its start) is lined on both sides. */
  lemma {:induction false} LinedCut<R>(tokens: seq<Token<R>>, k: nat)
    requires Lined(tokens) && k <= |tokens| && (k == 0 || tokens[k - 1].NL?)
    ensures Lined(tokens[..k]) && Lined(tokens[k..])
    decreases |tokens|
  {
    if k == 0 {
      assert tokens[..0] == [] && tokens[0..] == tokens;
    } else {
      LinedCut(tokens[2..], k - 2);
      assert tokens[2..][..k - 2] == tokens[..k][2..];
    }
  }
}
