/** The capped record reader against a plain splitting of its input into lines. */
module Jsonl {

  type Byte = x: int | 0 <= x < 256

  const LF: Byte := 10
  const CR: Byte := 13
  const U32_MAX := 0xffff_ffff
  const U64_MAX := 0xffff_ffff_ffff_ffff

  // ---- What a record is ----

  /** The place of the first line feed, or the length. */
  function Newline(s: seq<Byte>): (i: nat)
    ensures i <= |s| && (i < |s| ==> s[i] == LF)
  {
    if s == [] then 0 else if s[0] == LF then 0 else 1 + Newline(s[1..])
  }

  lemma {:induction false} NewlineIsFirst(s: seq<Byte>)
    ensures forall k :: 0 <= k < Newline(s) ==> s[k] != LF
    decreases |s|
  {
    if s != [] && s[0] != LF { NewlineIsFirst(s[1..]); }
  }

  lemma {:induction false} NewlineAt(s: seq<Byte>, i: nat)
    requires i <= |s| && (i < |s| ==> s[i] == LF) && forall k :: 0 <= k < i ==> s[k] != LF
    ensures Newline(s) == i
    decreases |s|
  {
    if i > 0 { NewlineAt(s[1..], i - 1); }
  }

  /** Bytes up to and with the first line feed, or all there are. */
  function Head(s: seq<Byte>): seq<Byte> {
    if Newline(s) < |s| then s[..Newline(s) + 1] else s
  }

  /** The input cut after each line feed. */
  function Pieces(s: seq<Byte>): seq<seq<Byte>>
    decreases |s|
  {
    if s == [] then [] else [Head(s)] + Pieces(s[|Head(s)|..])
  }

  predicate Terminated(piece: seq<Byte>) {
    piece != [] && piece[|piece| - 1] == LF
  }

  /** The record without its line feed. */
  function Content(piece: seq<Byte>): seq<Byte> {
    if Terminated(piece) then piece[..|piece| - 1] else piece
  }

  /** The record as `lines` gives it: a terminator is LF or CR LF. */
  function Line(piece: seq<Byte>): seq<Byte> {
    var content := Content(piece);
    if Terminated(piece) && content != [] && content[|content| - 1] == CR then content[..|content| - 1] else content
  }

  function Join(pieces: seq<seq<Byte>>): seq<Byte> {
    if pieces == [] then [] else pieces[0] + Join(pieces[1..])
  }

  /** A piece has its only line feed at its end. */
  ghost predicate OneLine(piece: seq<Byte>) {
    piece != [] && LF !in Content(piece)
  }

  lemma HeadIsOneLine(s: seq<Byte>)
    requires s != []
    ensures OneLine(Head(s)) && s == Head(s) + s[|Head(s)|..]
    ensures s[|Head(s)|..] != [] ==> Terminated(Head(s))
  {
    NewlineIsFirst(s);
  }

  lemma {:induction false} PiecesAreLines(s: seq<Byte>)
    ensures forall i :: 0 <= i < |Pieces(s)| ==> OneLine(Pieces(s)[i])
    ensures forall i :: 0 <= i < |Pieces(s)| - 1 ==> Terminated(Pieces(s)[i])
    ensures Pieces(s) == [] <==> s == []
    decreases |s|
  {
    if s != [] {
      HeadIsOneLine(s);
      PiecesAreLines(s[|Head(s)|..]);
    }
  }

  lemma {:induction false} PiecesJoin(s: seq<Byte>)
    ensures Join(Pieces(s)) == s
    decreases |s|
  {
    if s != [] {
      HeadIsOneLine(s);
      PiecesJoin(s[|Head(s)|..]);
      assert Pieces(s)[1..] == Pieces(s[|Head(s)|..]);
    }
  }

  /** The pieces are the input, whole and in order; each has its only line feed
      at its end, and none but the last lacks one. */
  lemma PiecesAreTheInput(s: seq<Byte>)
    ensures Join(Pieces(s)) == s
    ensures forall i :: 0 <= i < |Pieces(s)| ==> OneLine(Pieces(s)[i])
    ensures forall i :: 0 <= i < |Pieces(s)| - 1 ==> Terminated(Pieces(s)[i])
  {
    PiecesAreLines(s);
    PiecesJoin(s);
  }

  // ---- What the caller is to see ----

  predicate Fits(piece: seq<Byte>, maxBytes: nat) {
    |Content(piece)| <= maxBytes
  }

  /** A record that a read error cut off, short of the cap, is not a record. */
  predicate Whole(piece: seq<Byte>, fails: bool) {
    Terminated(piece) || !fails
  }

  function Lines(pieces: seq<seq<Byte>>, maxBytes: nat, fails: bool): seq<seq<Byte>> {
    if pieces == [] then []
    else
      (if Fits(pieces[0], maxBytes) && Whole(pieces[0], fails) then [Line(pieces[0])] else []) +
      Lines(pieces[1..], maxBytes, fails)
  }

  function Overlong(pieces: seq<seq<Byte>>, maxBytes: nat): nat {
    if pieces == [] then 0 else (if Fits(pieces[0], maxBytes) then 0 else 1) + Overlong(pieces[1..], maxBytes)
  }

  function Saturate(n: nat): nat {
    if n <= U32_MAX then n else U32_MAX
  }

  // ---- The reader ----

  datatype Read = Got(bytes: seq<Byte>) | Failed

  /** `take(limit).read_until(LF)` on what is left of the stream, which ends in
      an error if `fails`. */
  function ReadUntil(rest: seq<Byte>, limit: nat, fails: bool): Read {
    var i := Newline(rest);
    if i < |rest| && i < limit then Got(rest[..i + 1])
    else if |rest| >= limit then Got(rest[..limit])
    else if fails then Failed
    else Got(rest)
  }

  /** What `skip_until(LF)` leaves, if it does not run into the error. */
  function SkipUntil(rest: seq<Byte>): seq<Byte> {
    rest[|Head(rest)|..]
  }

  predicate SkipFails(rest: seq<Byte>, fails: bool) {
    fails && Newline(rest) == |rest|
  }

  function Limit(maxBytes: nat): nat {
    if maxBytes >= U64_MAX then U64_MAX else maxBytes + 1
  }

  lemma HeadOfTail(s: seq<Byte>, k: nat)
    requires k <= Newline(s)
    ensures Newline(s[k..]) == Newline(s) - k
  {
    NewlineIsFirst(s);
    NewlineAt(s[k..], Newline(s) - k);
  }

  /** A record within the cap comes back as it stands in the input. */
  lemma ReadFits(rest: seq<Byte>, maxBytes: nat, fails: bool)
    requires rest != [] && |rest| < U64_MAX && maxBytes <= U64_MAX && Fits(Head(rest), maxBytes)
    ensures Whole(Head(rest), fails) ==> ReadUntil(rest, Limit(maxBytes), fails) == Got(Head(rest))
    ensures !Whole(Head(rest), fails) ==> ReadUntil(rest, Limit(maxBytes), fails) == Failed && Head(rest) == rest
  {
    NewlineIsFirst(rest);
  }

  /** A longer one comes back cut to one byte past the cap, without its end. */
  lemma ReadOverlong(rest: seq<Byte>, maxBytes: nat, fails: bool)
    requires |rest| < U64_MAX && !Fits(Head(rest), maxBytes)
    ensures maxBytes < U64_MAX && |rest| >= maxBytes + 1
    ensures ReadUntil(rest, Limit(maxBytes), fails) == Got(rest[..maxBytes + 1])
    ensures !Terminated(rest[..maxBytes + 1])
    ensures SkipUntil(rest[maxBytes + 1..]) == rest[|Head(rest)|..]
    ensures SkipFails(rest[maxBytes + 1..], fails) <==> fails && Head(rest) == rest && !Terminated(rest)
  {
    NewlineIsFirst(rest);
    HeadOfTail(rest, maxBytes + 1);
  }

  datatype Unread = Unread(oversized: nat, failed: bool)

  /** What the first piece adds. */
  lemma StepPieces(rest: seq<Byte>, maxBytes: nat, fails: bool)
    requires rest != []
    ensures var head, tail := Head(rest), rest[|Head(rest)|..];
            && head != [] && |tail| < |rest|
            && Overlong(Pieces(rest), maxBytes) == (if Fits(head, maxBytes) then 0 else 1) + Overlong(Pieces(tail), maxBytes)
            && Lines(Pieces(rest), maxBytes, fails) ==
               (if Fits(head, maxBytes) && Whole(head, fails) then [Line(head)] else []) + Lines(Pieces(tail), maxBytes, fails)
  {
    assert Pieces(rest)[1..] == Pieces(rest[|Head(rest)|..]);
  }

  /** What one turn of the loop came to. */
  datatype Turn = End | Broken | Visit(line: seq<Byte>) | Skip | SkipThenBroken

  function TurnOf(rest: seq<Byte>, maxBytes: nat, fails: bool): Turn {
    var head := Head(rest);
    if rest == [] then if fails then Broken else End
    else if Fits(head, maxBytes) then if Whole(head, fails) then Visit(Line(head)) else Broken
    else if fails && !Terminated(head) then SkipThenBroken
    else Skip
  }

  /** What one read tells: the whole record, or one byte past the cap of it. */
  lemma ReadMeans(rest: seq<Byte>, maxBytes: nat, fails: bool)
    requires rest != [] && |rest| < U64_MAX && maxBytes <= U64_MAX
    ensures !Fits(Head(rest), maxBytes) ==> |rest| >= maxBytes + 1
    ensures var head, read := Head(rest), ReadUntil(rest, Limit(maxBytes), fails);
            if !Fits(head, maxBytes) then
              && read == Got(rest[..maxBytes + 1]) && !Terminated(rest[..maxBytes + 1])
              && SkipUntil(rest[maxBytes + 1..]) == rest[|head|..]
              && (SkipFails(rest[maxBytes + 1..], fails) <==> fails && !Terminated(head))
            else read == if Whole(head, fails) then Got(head) else Failed
    ensures Head(rest) != []
  {
    if Fits(Head(rest), maxBytes) { ReadFits(rest, maxBytes, fails); } else { ReadOverlong(rest, maxBytes, fails); }
  }

  /** One turn through the buffer: reads a record, or as much of it as may be
      held, and leaves the stream after it. */
  method ReadRecord(rest: seq<Byte>, maxBytes: nat, fails: bool)
    returns (turn: Turn, rest': seq<Byte>, ghost held: nat)
    requires |rest| < U64_MAX && maxBytes <= U64_MAX
    ensures turn == TurnOf(rest, maxBytes, fails)
    ensures turn.Visit? || turn.Skip? ==> rest' == rest[|Head(rest)|..]
    ensures held <= maxBytes + 1
  {
    held := 0;
    rest' := rest;
    var read := ReadUntil(rest, Limit(maxBytes), fails);
    if rest != [] { ReadMeans(rest, maxBytes, fails); }
    if read.Failed? {
      return Broken, rest, held;
    }
    var record := read.bytes;
    if record == [] {
      return End, rest, held;
    }
    held := |record|;
    rest' := rest[|record|..];
    var terminated := Terminated(record);
    if |record| - (if terminated then 1 else 0) > maxBytes {
      if !terminated {
        if SkipFails(rest', fails) {
          return SkipThenBroken, rest', held;
        }
        rest' := SkipUntil(rest');
      }
      return Skip, rest', held;
    }
    if terminated {
      record := record[..|record| - 1];
      if record != [] && record[|record| - 1] == CR {
        record := record[..|record| - 1];
      }
    }
    turn := Visit(record);
  }

  /** A turn that ends the stream leaves nothing more to see or to count. */
  lemma LastTurn(rest: seq<Byte>, maxBytes: nat, fails: bool)
    requires var turn := TurnOf(rest, maxBytes, fails); turn.End? || turn.Broken? || turn.SkipThenBroken?
    ensures Lines(Pieces(rest), maxBytes, fails) == []
    ensures Overlong(Pieces(rest), maxBytes) == if TurnOf(rest, maxBytes, fails).SkipThenBroken? then 1 else 0
    ensures fails <==> !TurnOf(rest, maxBytes, fails).End?
  {
    if rest != [] {
      StepPieces(rest, maxBytes, fails);
      HeadIsOneLine(rest);
      var tail := rest[|Head(rest)|..];
      assert tail == [] && Pieces(tail) == [];
    }
  }

  /** What is still to come from `rest` completes what has been handed over. */
  ghost predicate Completes(visited: seq<seq<Byte>>, skipped: nat, rest: seq<Byte>, maxBytes: nat, fails: bool,
                            lines: seq<seq<Byte>>, overlong: nat) {
    && visited + Lines(Pieces(rest), maxBytes, fails) == lines
    && skipped + Overlong(Pieces(rest), maxBytes) == overlong
  }

  lemma VisitCompletes(visited: seq<seq<Byte>>, skipped: nat, rest: seq<Byte>, maxBytes: nat, fails: bool,
                       lines: seq<seq<Byte>>, overlong: nat)
    requires Completes(visited, skipped, rest, maxBytes, fails, lines, overlong)
    requires TurnOf(rest, maxBytes, fails).Visit?
    ensures Completes(visited + [Line(Head(rest))], skipped, rest[|Head(rest)|..], maxBytes, fails, lines, overlong)
    ensures |rest[|Head(rest)|..]| < |rest|
  {
    StepPieces(rest, maxBytes, fails);
    var more := Lines(Pieces(rest[|Head(rest)|..]), maxBytes, fails);
    assert visited + ([Line(Head(rest))] + more) == visited + [Line(Head(rest))] + more;
  }

  lemma SkipCompletes(visited: seq<seq<Byte>>, skipped: nat, rest: seq<Byte>, maxBytes: nat, fails: bool,
                      lines: seq<seq<Byte>>, overlong: nat)
    requires Completes(visited, skipped, rest, maxBytes, fails, lines, overlong)
    requires TurnOf(rest, maxBytes, fails).Skip?
    ensures Completes(visited, skipped + 1, rest[|Head(rest)|..], maxBytes, fails, lines, overlong)
    ensures |rest[|Head(rest)|..]| < |rest|
  {
    StepPieces(rest, maxBytes, fails);
    var more := Lines(Pieces(rest[|Head(rest)|..]), maxBytes, fails);
    assert [] + more == more;
  }

  lemma LastCompletes(visited: seq<seq<Byte>>, skipped: nat, rest: seq<Byte>, maxBytes: nat, fails: bool,
                      lines: seq<seq<Byte>>, overlong: nat)
    requires Completes(visited, skipped, rest, maxBytes, fails, lines, overlong)
    requires !TurnOf(rest, maxBytes, fails).Visit? && !TurnOf(rest, maxBytes, fails).Skip?
    ensures visited == lines
    ensures skipped + (if TurnOf(rest, maxBytes, fails).SkipThenBroken? then 1 else 0) == overlong
    ensures fails <==> !TurnOf(rest, maxBytes, fails).End?
  {
    LastTurn(rest, maxBytes, fails);
    assert visited + [] == visited;
  }

  lemma StartCompletes(data: seq<Byte>, maxBytes: nat, fails: bool)
    ensures Completes([], 0, data, maxBytes, fails, Lines(Pieces(data), maxBytes, fails), Overlong(Pieces(data), maxBytes))
  {
    var all := Lines(Pieces(data), maxBytes, fails);
    assert [] + all == all;
  }

  /** `for_each`: exactly the records within the cap, in order, stripped as
      `lines` strips them; each longer one counted once, up to the counter's
      end; and never more than the cap and one byte held. */
  method ForEach(data: seq<Byte>, fails: bool, maxBytes: nat)
    returns (visited: seq<seq<Byte>>, unread: Unread, ghost peak: nat)
    requires |data| < U64_MAX && maxBytes <= U64_MAX
    ensures visited == Lines(Pieces(data), maxBytes, fails)
    ensures unread.oversized == Saturate(Overlong(Pieces(data), maxBytes))
    ensures unread.failed == fails
    ensures peak <= maxBytes + 1
  {
    ghost var lines, overlong := Lines(Pieces(data), maxBytes, fails), Overlong(Pieces(data), maxBytes);
    StartCompletes(data, maxBytes, fails);
    visited, unread, peak := Loop(data, fails, maxBytes, lines, overlong);
  }

  method Loop(data: seq<Byte>, fails: bool, maxBytes: nat, ghost lines: seq<seq<Byte>>, ghost overlong: nat)
    returns (visited: seq<seq<Byte>>, unread: Unread, ghost peak: nat)
    requires |data| < U64_MAX && maxBytes <= U64_MAX && Completes([], 0, data, maxBytes, fails, lines, overlong)
    ensures visited == lines && unread == Unread(Saturate(overlong), fails)
    ensures peak <= maxBytes + 1
  {
    visited, peak := [], 0;
    unread := Unread(0, false);
    var rest := data;
    ghost var skipped := 0;
    while true
      invariant |rest| <= |data| && Completes(visited, skipped, rest, maxBytes, fails, lines, overlong)
      invariant unread == Unread(Saturate(skipped), false) && peak <= maxBytes + 1
      decreases |rest|
    {
      var turn, after;
      ghost var held;
      turn, after, held := ReadRecord(rest, maxBytes, fails);
      peak := if held > peak then held else peak;
      match turn {
        case Visit(line) =>
          VisitCompletes(visited, skipped, rest, maxBytes, fails, lines, overlong);
          visited := visited + [line];
        case Skip =>
          SkipCompletes(visited, skipped, rest, maxBytes, fails, lines, overlong);
          unread, skipped := Unread(Saturate(unread.oversized + 1), false), skipped + 1;
        case End =>
          LastCompletes(visited, skipped, rest, maxBytes, fails, lines, overlong);
          break;
        case Broken =>
          LastCompletes(visited, skipped, rest, maxBytes, fails, lines, overlong);
          unread := Unread(unread.oversized, true);
          break;
        case SkipThenBroken =>
          LastCompletes(visited, skipped, rest, maxBytes, fails, lines, overlong);
          unread := Unread(Saturate(unread.oversized + 1), true);
          break;
      }
      rest := after;
    }
  }

  // ---- Written and read back ----

  /** Each record on a line of its own. */
  function Written(records: seq<seq<Byte>>): seq<Byte> {
    if records == [] then [] else records[0] + [LF] + Written(records[1..])
  }

  /** A record that a line can hold: no line feed in it, no carriage return at its end. */
  ghost predicate Plain(record: seq<Byte>) {
    LF !in record && (record != [] ==> record[|record| - 1] != CR)
  }

  lemma FirstWritten(record: seq<Byte>, rest: seq<Byte>)
    requires LF !in record
    ensures var s := record + [LF] + rest;
            Pieces(s) == [record + [LF]] + Pieces(rest)
  {
    var s := record + [LF] + rest;
    forall k | 0 <= k < |record| ensures s[k] != LF { assert s[k] == record[k] && record[k] in record; }
    NewlineAt(s, |record|);
    assert Head(s) == record + [LF];
    assert s[|record| + 1..] == rest;
  }

  /** What was written a record a line is read back record by record: every one
      within the cap, and the others counted. */
  lemma {:induction false} ReadsBack(records: seq<seq<Byte>>, maxBytes: nat, fails: bool)
    requires forall i :: 0 <= i < |records| ==> Plain(records[i])
    ensures Lines(Pieces(Written(records)), maxBytes, fails) == Within(records, maxBytes)
    ensures Overlong(Pieces(Written(records)), maxBytes) == |records| - |Within(records, maxBytes)|
    decreases |records|
  {
    if records != [] {
      var record, rest := records[0], Written(records[1..]);
      ReadsBack(records[1..], maxBytes, fails);
      FirstWritten(record, rest);
      PlainLine(record, maxBytes, fails);
      OnePieceMore(record + [LF], Pieces(rest), maxBytes, fails);
    }
  }

  lemma PlainLine(record: seq<Byte>, maxBytes: nat, fails: bool)
    requires Plain(record)
    ensures var piece := record + [LF];
            && Line(piece) == record && Whole(piece, fails) && (Fits(piece, maxBytes) <==> |record| <= maxBytes)
  {
    assert Content(record + [LF]) == record;
  }

  lemma OnePieceMore(piece: seq<Byte>, pieces: seq<seq<Byte>>, maxBytes: nat, fails: bool)
    ensures Lines([piece] + pieces, maxBytes, fails) ==
            (if Fits(piece, maxBytes) && Whole(piece, fails) then [Line(piece)] else []) + Lines(pieces, maxBytes, fails)
    ensures Overlong([piece] + pieces, maxBytes) == (if Fits(piece, maxBytes) then 0 else 1) + Overlong(pieces, maxBytes)
  {
    assert ([piece] + pieces)[1..] == pieces;
  }

  function Within(records: seq<seq<Byte>>, maxBytes: nat): seq<seq<Byte>> {
    if records == [] then []
    else (if |records[0]| <= maxBytes then [records[0]] else []) + Within(records[1..], maxBytes)
  }

  /** A terminator is LF or CR LF; an unterminated last record is whole. */
  lemma TerminatorsStripped(record: seq<Byte>)
    ensures Line(record + [CR, LF]) == record
    ensures Plain(record) ==> Line(record + [LF]) == record
    ensures LF !in record ==> Line(record) == record
  {
    var crlf, lf := record + [CR, LF], record + [LF];
    assert Content(crlf) == record + [CR];
    assert Content(lf) == record;
  }

  /** Unless the stream breaks off, every record is either handed over or counted. */
  lemma {:induction false} EveryRecordCounted(pieces: seq<seq<Byte>>, maxBytes: nat)
    ensures |Lines(pieces, maxBytes, false)| + Overlong(pieces, maxBytes) == |pieces|
  {
    if pieces != [] { EveryRecordCounted(pieces[1..], maxBytes); }
  }
}
