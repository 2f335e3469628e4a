/**
 The log as bytes: a record is its encoding and a newline, and reading scans line by line.
 Wherever a crash cuts the bytes, what is left reads as the tokens left do.
 */
module LogBytes {

  import opened Wrappers
  import opened DurableLog
  import opened DurableProtocol
  import DurableSafety

  type Byte = x: nat | x < 256

  const NEWLINE: Byte := 10
  const CARRIAGE_RETURN: Byte := 13

  /** A line must be shorter than this to be read back. */
  const MAX_LINE: nat := 64 * 1024 * 1024

  datatype Codec<!R> = Codec(enc: R -> seq<Byte>, dec: seq<Byte> -> Option<R>)

  ghost predicate EncodesLine<R(!new)>(c: Codec<R>, r: R) {
    && c.enc(r) != [] && NEWLINE !in c.enc(r)
    && c.enc(r)[|c.enc(r)| - 1] != CARRIAGE_RETURN
    && c.dec(c.enc(r)) == Some(r)
  }

  /** The bytes are part of a record, from its beginning. */
  ghost predicate PartOf<R(!new)>(c: Codec<R>, part: seq<Byte>, r: R) {
    part != [] && part <= c.enc(r)
  }

  /**
   What the log relies on in the JSON of a record: one line, not ending in a carriage return,
   that decodes to the record; neither a proper beginning of it nor it followed by the
   beginning of another (whatever comes after) decodes.
   */
  ghost predicate OneObjectPerLine<R(!new)>(c: Codec<R>) {
    && (forall r :: EncodesLine(c, r))
    && c.dec([]).None?
    && (forall part, r :: PartOf(c, part, r) && part != c.enc(r) ==> c.dec(part).None? && c.dec(DropCR(part)).None?)
    && (forall r, part, q, rest :: PartOf(c, part, q) ==> c.dec(DropCR(c.enc(r) + part + rest)).None?)
  }

  /** Such an encoding exists: numbers as that many ones and a two. */
  function Ones(n: nat): (b: seq<Byte>)
    ensures |b| == n && forall i :: 0 <= i < n ==> b[i] == 1
  {
    seq(n, _ => 1)
  }

  ghost function Unary(): Codec<nat> {
    Codec((n: nat) => Ones(n) + [2],
          (b: seq<Byte>) => if b != [] && b == Ones(|b| - 1) + [2] then Some((|b| - 1) as nat) else None)
  }

  lemma UnaryQualifies()
    ensures OneObjectPerLine(Unary())
  {
    var c := Unary();
    forall part, r: nat | PartOf(c, part, r) && part != c.enc(r)
      ensures c.dec(part).None? && c.dec(DropCR(part)).None?
    {
      assert part[|part| - 1] == c.enc(r)[|part| - 1] == 1;
    }
    forall r: nat, part, q: nat, rest | PartOf(c, part, q)
      ensures c.dec(DropCR(c.enc(r) + part + rest)).None?
    {
      var b := DropCR(c.enc(r) + part + rest);
      assert |b| > r + 1 && b[r] == 2;
    }
  }

  // ---------------------------------------------------------------- scanning

  /** The position of the first newline, or the length. */
  function LineEnd(b: seq<Byte>): (n: nat)
    ensures n <= |b| && NEWLINE !in b[..n] && (n < |b| ==> b[n] == NEWLINE)
  {
    if b == [] || b[0] == NEWLINE then 0
    else
      var n := LineEnd(b[1..]);
      assert b[..n + 1] == [b[0]] + b[1..][..n];
      n + 1
  }

  function DropCR(line: seq<Byte>): seq<Byte> {
    if line != [] && line[|line| - 1] == CARRIAGE_RETURN then line[..|line| - 1] else line
  }

  /** Every line decodes to a record; the last may lack its newline. */
  function Scan<R>(c: Codec<R>, b: seq<Byte>): Option<seq<R>>
    decreases |b|
  {
    if b == [] then Some([])
    else
      var n := LineEnd(b);
      if n >= MAX_LINE then None
      else
        match c.dec(DropCR(b[..n]))
        case None => None
        case Some(r) =>
          if n == |b| then Some([r])
          else
            match Scan(c, b[n + 1..])
            case None => None
            case Some(rest) => Some([r] + rest)
  }

  ghost function Prepended<R>(records: seq<R>, more: Option<seq<R>>): Option<seq<R>> {
    match more case None => None case Some(rs) => Some(records + rs)
  }

  lemma PrependOne<R>(records: seq<R>, r: R, more: Option<seq<R>>)
    ensures Prepended(records, Prepended([r], more)) == Prepended(records + [r], more)
  {
    if more.Some? {
      assert records + ([r] + more.value) == records + [r] + more.value;
    }
  }

  lemma ScanUnfolds<R>(c: Codec<R>, file: seq<Byte>, pos: nat, n: nat)
    requires pos < |file| && pos <= n <= |file| && n - pos == LineEnd(file[pos..])
    ensures Scan(c, file[pos..]) ==
      if n - pos >= MAX_LINE then None
      else
        match c.dec(DropCR(file[pos..n]))
        case None => None
        case Some(r) => Prepended([r], Scan(c, file[if n == |file| then n else n + 1..]))
  {
    hide LineEnd, DropCR;
    assert file[pos..n] == file[pos..][..n - pos];
    if n < |file| {
      assert file[pos..][n - pos + 1..] == file[n + 1..];
    } else if c.dec(DropCR(file[pos..n])).Some? {
      var r := c.dec(DropCR(file[pos..n])).value;
      assert [r] + [] == [r];
    }
  }

  lemma PrependNone<R>(more: Option<seq<R>>)
    ensures Prepended([], more) == more
  {
    if more.Some? {
      assert [] + more.value == more.value;
    }
  }

  // ---------------------------------------------------------------- tokens as bytes

  function TokenBytes<R>(c: Codec<R>, t: Token<R>): seq<Byte> {
    match t case Rec(r) => c.enc(r) case NL => [NEWLINE]
  }

  function Bytes<R>(c: Codec<R>, tokens: seq<Token<R>>): seq<Byte> {
    if tokens == [] then [] else TokenBytes(c, tokens[0]) + Bytes(c, tokens[1..])
  }

  lemma {:induction false} BytesConcat<R>(c: Codec<R>, a: seq<Token<R>>, b: seq<Token<R>>)
    ensures Bytes(c, a + b) == Bytes(c, a) + Bytes(c, b)
    decreases |a|
  {
    if a == [] {
      assert a + b == b;
    } else {
      assert (a + b)[1..] == a[1..] + b;
      BytesConcat(c, a[1..], b);
    }
  }

  lemma TwoTokens<R>(c: Codec<R>, tokens: seq<Token<R>>, tail: seq<Byte>)
    requires |tokens| >= 2
    ensures Bytes(c, tokens) + tail
         == TokenBytes(c, tokens[0]) + TokenBytes(c, tokens[1]) + (Bytes(c, tokens[2..]) + tail)
  {
    assert tokens[1..][1..] == tokens[2..];
  }

  /** What one append is to write: the bytes of a record and a newline. */
  function LineBytes<R>(c: Codec<R>, r: R): (b: seq<Byte>)
    ensures b == Bytes(c, [Rec(r), NL])
  {
    var tokens := [Rec(r), NL];
    assert tokens[2..] == [];
    TwoTokens(c, tokens, []);
    c.enc(r) + [NEWLINE]
  }

  /** The bytes of the tokens, then part of a record if `torn`. */
  ghost predicate Holds<R(!new)>(c: Codec<R>, b: seq<Byte>, tokens: seq<Token<R>>, torn: bool, tail: seq<Byte>) {
    && b == Bytes(c, tokens) + tail
    && (if torn then exists r :: PartOf(c, tail, r) && tail != c.enc(r) else tail == [])
  }

  /** Any cut of the bytes is a cut of the tokens, at a token or within a record. */
  lemma {:induction false} CutIsTokenCut<R(!new)>(c: Codec<R>, tokens: seq<Token<R>>, n: nat)
      returns (keep: nat, torn: bool, tail: seq<Byte>)
    requires OneObjectPerLine(c) && n <= |Bytes(c, tokens)|
    ensures keep <= |tokens| && (torn ==> keep < |tokens| && tokens[keep].Rec?)
    ensures Holds(c, Bytes(c, tokens)[..n], tokens[..keep], torn, tail)
    ensures keep < |tokens| ==> |tail| < |TokenBytes(c, tokens[keep])|
    decreases |tokens|
  {
    if tokens == [] || n == 0 {
      keep, torn, tail := 0, false, [];
      assert tokens != [] && tokens[0].Rec? ==> EncodesLine(c, tokens[0].record);
    } else {
      var first := TokenBytes(c, tokens[0]);
      if n < |first| {
        keep, torn, tail := 0, true, first[..n];
        assert PartOf(c, tail, tokens[0].record) && tail != c.enc(tokens[0].record);
        assert Bytes(c, tokens)[..n] == Bytes(c, tokens[..0]) + tail;
      } else {
        var k;
        k, torn, tail := CutIsTokenCut(c, tokens[1..], n - |first|);
        keep := k + 1;
        assert tokens[..keep][1..] == tokens[1..][..k];
        assert Bytes(c, tokens)[..n] == first + Bytes(c, tokens[1..])[..n - |first|];
      }
    }
  }

  // ---------------------------------------------------------------- reading bytes is reading tokens

  /** The first newline is after whatever has none. */
  lemma {:induction false} LineEndSkips(a: seq<Byte>, b: seq<Byte>)
    requires NEWLINE !in a
    ensures LineEnd(a + b) == |a| + LineEnd(b)
    decreases |a|
  {
    if a == [] {
      assert a + b == b;
    } else {
      assert (a + b)[1..] == a[1..] + b && (a + b)[0] == a[0];
      LineEndSkips(a[1..], b);
    }
  }

  /** The records whose line is short enough to be read back. */
  ghost function ShortEnough<R(!new)>(c: Codec<R>): R -> bool {
    r => |c.enc(r)| < MAX_LINE
  }

  /** A record alone, up to the end of the file or to its newline. */
  lemma ScanRecord<R(!new)>(c: Codec<R>, r: R, rest: seq<Byte>)
    requires OneObjectPerLine(c) && |c.enc(r)| < MAX_LINE
    ensures Scan(c, c.enc(r)) == Some([r])
    ensures Scan(c, c.enc(r) + [NEWLINE] + rest) == Prepended([r], Scan(c, rest))
  {
    assert EncodesLine(c, r);
    var e := c.enc(r);
    var b := e + [NEWLINE] + rest;
    assert e + [] == e;
    LineEndSkips(e, [NEWLINE] + rest);
    assert e + ([NEWLINE] + rest) == b;
  }

  /** A record that is too long is written, but never read back. */
  lemma ScanTooLong<R(!new)>(c: Codec<R>, r: R, rest: seq<Byte>)
    requires OneObjectPerLine(c) && MAX_LINE <= |c.enc(r)|
    ensures Scan(c, c.enc(r) + rest).None?
  {
    assert EncodesLine(c, r);
  }

  /** Two records, or a record and part of another, on one line. */
  lemma ScanJoined<R(!new)>(c: Codec<R>, r: R, part: seq<Byte>, q: R, rest: seq<Byte>)
    requires OneObjectPerLine(c) && PartOf(c, part, q)
    ensures Scan(c, c.enc(r) + part + rest).None?
  {
    assert EncodesLine(c, r) && EncodesLine(c, q);
    var head := c.enc(r) + part;
    var b := head + rest;
    var n := LineEnd(b);
    assert b[..n] == c.enc(r) + part + b[|head|..n];
  }

  lemma ScanLast<R(!new)>(c: Codec<R>, b: seq<Byte>, r: R, torn: bool, tail: seq<Byte>)
    requires OneObjectPerLine(c) && |c.enc(r)| < MAX_LINE && Holds(c, b, [Rec(r)], torn, tail)
    ensures Scan(c, b) == if torn then None else Some([r])
  {
    assert Bytes(c, [Rec(r)]) == c.enc(r) + [];
    if torn {
      var q :| PartOf(c, tail, q) && tail != c.enc(q);
      assert b == c.enc(r) + tail + [];
      ScanJoined(c, r, tail, q, []);
    } else {
      assert b == c.enc(r);
      ScanRecord(c, r, []);
    }
  }

  lemma ScanPair<R(!new)>(c: Codec<R>, r: R, t: Token<R>, rest: seq<Byte>)
    requires OneObjectPerLine(c) && |c.enc(r)| < MAX_LINE
    ensures Scan(c, c.enc(r) + TokenBytes(c, t) + rest) == if t.Rec? then None else Prepended([r], Scan(c, rest))
  {
    if t.Rec? {
      var q := t.record;
      assert EncodesLine(c, q) && PartOf(c, c.enc(q), q);
      ScanJoined(c, r, c.enc(q), q, rest);
    } else {
      ScanRecord(c, r, rest);
    }
  }

  /**
   Scanning the bytes of tokens, and part of a record if torn, is reading the tokens: a record
   too long to be read back, wherever it stands, and only such a one, makes the difference.
   */
  lemma {:induction false} ScanIsReadLines<R(!new)>(c: Codec<R>, b: seq<Byte>, tokens: seq<Token<R>>, torn: bool,
                                                    tail: seq<Byte>)
    requires OneObjectPerLine(c) && Holds(c, b, tokens, torn, tail)
    ensures Scan(c, b) == ReadLines(ShortEnough(c), tokens, torn)
    decreases |tokens|
  {
    if tokens == [] {
    } else if tokens[0].NL? {
      assert b == [NEWLINE] + (Bytes(c, tokens[1..]) + tail);
    } else if !ShortEnough(c)(tokens[0].record) {
      var rest := Bytes(c, tokens[1..]) + tail;
      assert b == c.enc(tokens[0].record) + rest;
      ScanTooLong(c, tokens[0].record, rest);
    } else if |tokens| == 1 {
      assert tokens == [Rec(tokens[0].record)];
      ScanLast(c, b, tokens[0].record, torn, tail);
    } else {
      var rest := Bytes(c, tokens[2..]) + tail;
      TwoTokens(c, tokens, tail);
      ScanPair(c, tokens[0].record, tokens[1], rest);
      if tokens[1].NL? {
        ScanIsReadLines(c, rest, tokens[2..], torn, tail);
      }
    }
  }

  /**
   The bytes can be read back exactly when they are whole lines, the last perhaps without its
   newline, with no part of a record after them and no record too long.
   */
  lemma ScansExactly<R(!new)>(c: Codec<R>, b: seq<Byte>, tokens: seq<Token<R>>, torn: bool, tail: seq<Byte>)
    requires OneObjectPerLine(c) && Holds(c, b, tokens, torn, tail)
    ensures Scan(c, b).Some? <==> !torn && DurableSafety.Legible(tokens) && AllFit(ShortEnough(c), tokens)
  {
    ScanIsReadLines(c, b, tokens, torn, tail);
    DurableSafety.ReadsWhenLegible(ShortEnough(c), tokens, torn);
  }

  /** Where a token ends a line, the byte there is a newline; where it ends a record, it is not. */
  lemma BoundaryBytes<R(!new)>(c: Codec<R>, tokens: seq<Token<R>>, k: nat, rest: seq<Byte>)
    requires OneObjectPerLine(c) && 0 < k <= |tokens|
    ensures |Bytes(c, tokens[..k])| > 0
    ensures Bytes(c, tokens) == Bytes(c, tokens[..k]) + Bytes(c, tokens[k..])
    ensures (Bytes(c, tokens) + rest)[|Bytes(c, tokens[..k])| - 1] == NEWLINE <==> tokens[k - 1].NL?
  {
    assert tokens == tokens[..k] + tokens[k..];
    BytesConcat(c, tokens[..k], tokens[k..]);
    assert tokens[..k] == tokens[..k - 1] + [tokens[k - 1]];
    BytesConcat(c, tokens[..k - 1], [tokens[k - 1]]);
    if tokens[k - 1].Rec? {
      assert EncodesLine(c, tokens[k - 1].record);
    }
  }

  // ---------------------------------------------------------------- the protocol's file

  /** Bytes that hold the protocol's file, the first `durable` of them on disk. */
  ghost predicate HoldsFile<R(!new)>(c: Codec<R>, b: seq<Byte>, durable: nat, f: File<R>) {
    && f.flushed <= |f.tokens|
    && |Bytes(c, f.tokens[..f.flushed])| <= durable <= |b|
    && |Bytes(c, f.tokens)| <= |b|
    && Holds(c, b, f.tokens, f.torn, b[|Bytes(c, f.tokens)|..])
  }

  /** What is read from an offset: nothing from past the end or from within a line. */
  function ReadBytes<R>(c: Codec<R>, b: seq<Byte>, offset: nat): Option<seq<R>> {
    if offset > |b| || (offset > 0 && b[offset - 1] != NEWLINE) then None else Scan(c, b[offset..])
  }

  /** What follows the byte where a token begins; it is a line's beginning exactly if the token is. */
  lemma FromToken<R(!new)>(c: Codec<R>, b: seq<Byte>, durable: nat, f: File<R>, k: nat)
    requires OneObjectPerLine(c) && HoldsFile(c, b, durable, f) && k <= |f.tokens|
    ensures var n := |Bytes(c, f.tokens[..k])|;
      && n <= |b| && Holds(c, b[n..], f.tokens[k..], f.torn, b[|Bytes(c, f.tokens)|..])
      && ((n > 0 && b[n - 1] != NEWLINE) <==> !IsBoundary(f.tokens, k))
  {
    var tail := b[|Bytes(c, f.tokens)|..];
    var n := |Bytes(c, f.tokens[..k])|;
    if k == 0 {
      assert f.tokens[0..] == f.tokens && b[0..] == b;
    } else {
      BoundaryBytes(c, f.tokens, k, tail);
      assert b[n..] == Bytes(c, f.tokens[k..]) + tail;
    }
  }

  /** Reading from the byte where a token begins is the protocol's reading from that token. */
  lemma ReadBytesIsReadFrom<R(!new)>(c: Codec<R>, b: seq<Byte>, durable: nat, f: File<R>, k: nat)
    requires OneObjectPerLine(c) && HoldsFile(c, b, durable, f) && k <= |f.tokens|
    ensures ReadBytes(c, b, |Bytes(c, f.tokens[..k])|) == ReadFrom(ShortEnough(c), f, k)
  {
    hide Scan, ReadLines, OneObjectPerLine, Bytes, Holds, IsBoundary;
    FromToken(c, b, durable, f, k);
    ScanIsReadLines(c, b[|Bytes(c, f.tokens[..k])|..], f.tokens[k..], f.torn, b[|Bytes(c, f.tokens)|..]);
  }

  lemma BytesGrow<R>(c: Codec<R>, tokens: seq<Token<R>>, i: nat, k: nat)
    requires i <= k <= |tokens|
    ensures |Bytes(c, tokens[..i])| <= |Bytes(c, tokens[..k])| <= |Bytes(c, tokens)|
  {
    assert tokens[..k] == tokens[..i] + tokens[i..k] && tokens == tokens[..k] + tokens[k..];
    BytesConcat(c, tokens[..i], tokens[i..k]);
    BytesConcat(c, tokens[..k], tokens[k..]);
  }

  /** A cut within a token is past every token whose bytes it has. */
  lemma CutReaches<R>(c: Codec<R>, tokens: seq<Token<R>>, keep: nat, extra: nat, i: nat)
    requires keep < |tokens| && i <= |tokens| && extra < |TokenBytes(c, tokens[keep])|
    requires |Bytes(c, tokens[..i])| <= |Bytes(c, tokens[..keep])| + extra
    ensures i <= keep
  {
    assert tokens[..keep + 1] == tokens[..keep] + [tokens[keep]];
    BytesConcat(c, tokens[..keep], [tokens[keep]]);
    assert Bytes(c, [tokens[keep]]) == TokenBytes(c, tokens[keep]) + [];
    if keep < i {
      BytesGrow(c, tokens, keep + 1, i);
    }
  }

  /**
   Whatever beginning of the bytes a crash leaves, if it has those that were on disk, holds a
   cut of the file that the protocol allows; so reading it is reading that cut.
   */
  lemma CrashIsCut<R(!new)>(c: Codec<R>, b: seq<Byte>, durable: nat, f: File<R>, n: nat)
      returns (keep: nat, torn: bool)
    requires OneObjectPerLine(c) && HoldsFile(c, b, durable, f) && durable <= n <= |b|
    ensures CutAllowed(f, keep, torn, f.flushed)
    ensures HoldsFile(c, b[..n], durable, Cut(f, keep, torn, f.flushed))
    ensures Scan(c, b[..n]) == ReadLines(ShortEnough(c), f.tokens[..keep], torn)
  {
    var whole := Bytes(c, f.tokens);
    var tail := b[|whole|..];
    if n <= |whole| {
      keep, torn, tail := CutIsTokenCut(c, f.tokens, n);
      assert b[..n] == whole[..n];
      if keep < |f.tokens| {
        CutReaches(c, f.tokens, keep, |tail|, f.flushed);
      }
    } else {
      keep, torn := |f.tokens|, true;
      tail := b[|whole|..n];
      var r :| PartOf(c, b[|whole|..], r) && b[|whole|..] != c.enc(r);
      assert PartOf(c, tail, r) && tail != c.enc(r);
    }
    assert f.tokens[..|f.tokens|] == f.tokens && f.tokens[..keep][..f.flushed] == f.tokens[..f.flushed];
    assert b[..n][|Bytes(c, f.tokens[..keep])|..] == tail;
    ScanIsReadLines(c, b[..n], f.tokens[..keep], torn, tail);
  }

  /** The last byte is a newline exactly when the file ends with a line. */
  lemma LastByte<R(!new)>(c: Codec<R>, b: seq<Byte>, durable: nat, f: File<R>)
    requires OneObjectPerLine(c) && HoldsFile(c, b, durable, f)
    ensures b == [] || b[|b| - 1] == NEWLINE <==> !f.torn && EndsLine(f.tokens)
    ensures |b| == |Bytes(c, f.tokens)| <==> !f.torn
  {
    var n := |f.tokens|;
    assert f.tokens[..n] == f.tokens;
    if f.torn {
      var tail := b[|Bytes(c, f.tokens)|..];
      var r :| PartOf(c, tail, r) && tail != c.enc(r);
      assert EncodesLine(c, r) && tail[|tail| - 1] in c.enc(r);
    } else if n > 0 {
      BoundaryBytes(c, f.tokens, n, []);
    }
  }

  /** The file after so many bytes of a record's line have been appended, and perhaps synced. */
  ghost function Appended<R>(c: Codec<R>, f: File<R>, r: R, written: nat, synced: bool): File<R> {
    var size := |c.enc(r)|;
    var kept := if written > size then 2 else if written == size then 1 else 0;
    var g := f.(tokens := f.tokens + Line(r)[..kept], torn := 0 < written < size);
    if synced then g.(flushed := |g.tokens|) else g
  }

  /** However much of it is written, an append is one of the protocol's steps. */
  lemma AppendIsStep<S, R>(c: Codec<R>, sys: System<S, R>, everyWrite: bool, s: State<S, R>, r: R, written: nat)
    requires Ready(s) && s.proc.value.open && !Live(s.disk).torn && written <= |c.enc(r)| + 1
    ensures written == |c.enc(r)| + 1 ==>
      && Enabled(sys, everyWrite, s, Write(r))
      && var t := Do(sys, everyWrite, s, Write(r));
         && Live(t.disk) == Appended(c, Live(s.disk), r, written, false)
         && Live(Do(sys, everyWrite, t, Sync).disk) == Appended(c, Live(s.disk), r, written, true)
    ensures written <= |c.enc(r)| ==>
      var a := WriteFails(r, if written == |c.enc(r)| then 1 else 0, 0 < written < |c.enc(r)|);
      && Enabled(sys, everyWrite, s, a)
      && Live(Do(sys, everyWrite, s, a).disk) == Appended(c, Live(s.disk), r, written, false)
  {
    assert Line(r)[..2] == Line(r);
  }

  lemma FlushedHolds<R(!new)>(c: Codec<R>, b: seq<Byte>, durable: nat, f: File<R>)
    requires HoldsFile(c, b, durable, f)
    ensures HoldsFile(c, b, |b|, f.(flushed := |f.tokens|))
  {
    assert f.tokens[..|f.tokens|] == f.tokens;
  }

  lemma AppendedHolds<R(!new)>(c: Codec<R>, b: seq<Byte>, durable: nat, f: File<R>, r: R, written: nat)
    requires OneObjectPerLine(c) && HoldsFile(c, b, durable, f) && !f.torn && written <= |c.enc(r)| + 1
    ensures HoldsFile(c, b + LineBytes(c, r)[..written], durable, Appended(c, f, r, written, false))
  {
    assert EncodesLine(c, r);
    var size := |c.enc(r)|;
    var g := Appended(c, f, r, written, false);
    var more := Line(r)[..if written > size then 2 else if written == size then 1 else 0];
    BytesConcat(c, f.tokens, more);
    assert g.tokens[..f.flushed] == f.tokens[..f.flushed];
    var line := LineBytes(c, r)[..written];
    assert b == Bytes(c, f.tokens);
    if written > size {
      assert more == [Rec(r), NL] && line == Bytes(c, more);
    } else if written == size {
      assert more == [Rec(r)] && Bytes(c, more) == c.enc(r) + [];
      assert line == c.enc(r);
    } else {
      assert more == [] && g.tokens == f.tokens && line == c.enc(r)[..written];
      assert g.torn ==> PartOf(c, line, r) && line != c.enc(r);
    }
    assert (b + line)[|Bytes(c, g.tokens)|..] == if g.torn then line else [];
  }

  // ---------------------------------------------------------------- the log object

  /** What the operating system does with one append: how many bytes it writes, whether it syncs. */
  datatype Outcome = Outcome(written: nat, synced: bool)

  class SessionWAL<R(!new)> {
    const codec: Codec<R>
    const everyWrite: bool
    var generation: nat
    var file: seq<Byte>
    var currentLSN: nat
    var flushedLSN: nat

    /** How many bytes of the file are on disk. */
    ghost var durable: nat

    ghost predicate Valid()
      reads this
    {
      OneObjectPerLine(codec) && flushedLSN <= currentLSN <= |file| && durable <= |file|
    }

    /** The object is the protocol's file. */
    ghost predicate Is(f: File<R>)
      reads this
    {
      generation == f.generation && HoldsFile(codec, file, durable, f)
    }

    /** No append has failed part of the way. */
    ghost predicate Whole()
      reads this
    {
      currentLSN == |file|
    }

    constructor (codec: Codec<R>, everyWrite: bool, generation: nat, file: seq<Byte>, ghost durable: nat)
      requires OneObjectPerLine(codec) && durable <= |file|
      ensures Valid() && Whole() && this.file == file && this.generation == generation && this.durable == durable
      ensures this.codec == codec && this.everyWrite == everyWrite && flushedLSN == |file|
    {
      this.codec, this.everyWrite, this.generation, this.file := codec, everyWrite, generation, file;
      currentLSN, flushedLSN, this.durable := |file|, |file|, durable;
    }

    /** Appending to the protocol's file, unless that is torn, is its step of writing. */
    method Append(record: R, outcome: Outcome, ghost f: File<R>) returns (ok: bool)
      requires Valid() && outcome.written <= |codec.enc(record)| + 1
      modifies this
      ensures Valid() && generation == old(generation)
      ensures file == old(file) + LineBytes(codec, record)[..outcome.written]
      ensures ok <==> outcome.written == |codec.enc(record)| + 1 && (everyWrite ==> outcome.synced)
      ensures outcome.written == |codec.enc(record)| + 1 && old(Whole()) ==> Whole()
      ensures outcome.written <= |codec.enc(record)| ==> currentLSN == old(currentLSN)
      ensures flushedLSN == if ok && everyWrite then currentLSN else old(flushedLSN)
      ensures old(Is(f)) && !f.torn ==> Is(Appended(codec, f, record, outcome.written, ok && everyWrite))
    {
      var line := codec.enc(record) + [NEWLINE];
      if Is(f) && !f.torn {
        AppendedHolds(codec, file, durable, f, record, outcome.written);
      }
      file := file + line[..outcome.written];
      if outcome.written < |line| {
        return false;
      }
      currentLSN := currentLSN + |line|;
      if everyWrite {
        if !outcome.synced {
          return false;
        }
        flushedLSN, durable := currentLSN, |file|;
        if old(Is(f)) && !f.torn {
          FlushedHolds(codec, file, old(durable), Appended(codec, f, record, outcome.written, false));
        }
      }
      ok := true;
    }

    /** A sync that succeeds flushes the protocol's file; then what is reported flushed is on disk. */
    method Sync(synced: bool, ghost f: File<R>) returns (ok: bool)
      requires Valid()
      modifies this`flushedLSN, this`durable
      ensures Valid() && ok == synced
      ensures flushedLSN == if synced then currentLSN else old(flushedLSN)
      ensures durable == if synced then |file| else old(durable)
      ensures synced ==> flushedLSN <= durable
      ensures old(Is(f)) ==> Is(if synced then f.(flushed := |f.tokens|) else f)
    {
      if synced {
        if Is(f) {
          FlushedHolds(codec, file, durable, f);
        }
        flushedLSN, durable := currentLSN, |file|;
      }
      ok := synced;
    }

    /**
     An empty file of the next generation takes the place of the log, if every system call on
     the way succeeds; otherwise the object goes on with the old file, renamed over or not.
     */
    method Truncate(renamed: bool, synced: bool, ghost f: File<R>) returns (ok: bool)
      requires Valid()
      modifies this
      ensures Valid() && (ok <==> renamed && synced)
      ensures ok ==> Whole() && Is(File(old(generation) + 1, [], false, 0))
      ensures !ok ==> file == old(file) && (old(Is(f)) ==> Is(f))
    {
      if !renamed {
        return false;
      }
      if !synced {
        return false;
      }
      file, generation := [], generation + 1;
      currentLSN, flushedLSN, durable := 0, 0, 0;
      ok := true;
    }

    /**
     Where the file ends: past the protocol's tokens if and only if it is torn. Reading from
     there refuses unless that is a line's end, and otherwise reads what has been added since.
     */
    method Position(ghost f: File<R>) returns (gen: nat, offset: nat)
      requires Valid()
      ensures gen == generation && offset == |file|
      ensures Is(f) ==> gen == f.generation && (offset == |Bytes(codec, f.tokens)| <==> !f.torn)
      ensures Is(f) ==> forall more :: file <= more ==>
        ReadBytes(codec, more, offset) ==
          if !f.torn && EndsLine(f.tokens) then Scan(codec, more[offset..]) else None
    {
      gen, offset := generation, |file|;
      if Is(f) {
        LastByte(codec, file, durable, f);
      }
    }

    /** Reading from the byte where a token of the protocol's file begins is its reading from there. */
    method ReadFrom(offset: nat, ghost f: File<R>, ghost k: nat) returns (r: Option<seq<R>>)
      requires Valid()
      ensures r == ReadBytes(codec, file, offset)
      ensures Is(f) && k <= |f.tokens| && offset == |Bytes(codec, f.tokens[..k])| ==>
        r == DurableProtocol.ReadFrom(ShortEnough(codec), f, k)
    {
      if Is(f) && k <= |f.tokens| {
        ReadBytesIsReadFrom(codec, file, durable, f, k);
      }
      if offset > |file| {
        return None;
      }
      if offset > 0 {
        if file[offset - 1] != NEWLINE {
          return None;
        }
      }
      r := ScanFrom(offset);
    }

    /** The scanner, line by line. */
    method ScanFrom(offset: nat) returns (r: Option<seq<R>>)
      requires offset <= |file|
      ensures r == Scan(codec, file[offset..])
    {
      var records: seq<R> := [];
      var pos := offset;
      PrependNone(Scan(codec, file[offset..]));
      while pos < |file|
        invariant offset <= pos <= |file|
        invariant Scan(codec, file[offset..]) == Prepended(records, Scan(codec, file[pos..]))
      {
        hide Scan, LineEnd, DropCR;
        var n := NextLine(pos);
        ScanUnfolds(codec, file, pos, n);
        if n - pos >= MAX_LINE {
          return None;
        }
        var decoded := codec.dec(DropCR(file[pos..n]));
        if decoded.None? {
          return None;
        }
        pos := if n == |file| then n else n + 1;
        PrependOne(records, decoded.value, Scan(codec, file[pos..]));
        records := records + [decoded.value];
      }
      assert records + [] == records;
      return Some(records);
    }

    method NextLine(pos: nat) returns (n: nat)
      requires pos < |file|
      ensures pos <= n <= |file| && n - pos == LineEnd(file[pos..])
    {
      n := pos;
      while n < |file| && file[n] != NEWLINE
        invariant pos <= n <= |file| && NEWLINE !in file[pos..n]
      {
        assert file[pos..n + 1] == file[pos..n] + [file[n]];
        n := n + 1;
      }
      LineEndSkips(file[pos..n], file[n..]);
      assert file[pos..] == file[pos..n] + file[n..];
    }
  }
}
