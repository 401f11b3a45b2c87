/** A paragraph as the source writes it, row by row, and the pieces its text node is cut into. */
module SourceRows {
  import opened Options
  import opened Text
  import opened SourcePieces

  /** A row of the source: the prefix of the line, the line's words, the blanks trimmed behind them, and the break. */
  datatype Row = Row(prefix: string, line: string, trailing: string, brk: string)

  function Written(row: Row): string {
    row.prefix + row.line + row.trailing + row.brk
  }

  function SourceOf(rows: seq<Row>): string {
    if rows == [] then "" else Written(rows[0]) + SourceOf(rows[1..])
  }

  /** The node's text: the lines and their breaks. */
  function TextOf(rows: seq<Row>): string {
    if rows == [] then "" else rows[0].line + rows[0].brk + TextOf(rows[1..])
  }

  ghost predicate AllIn(s: string, marks: set<char>) {
    forall c | c in s :: c in marks
  }

  /** The row can stand there: its parts are what they are called, and its words do not look like more prefix. */
  ghost predicate RowHolds(row: Row, first: bool, last: bool, after: string) {
    && AllIn(row.prefix, LINE_PREFIX) && AllIn(row.trailing, TRAILING) && (first ==> row.prefix == "")
    && '\r' !in row.line && '\n' !in row.line
    && (row.line != "" && !first ==> row.line[0] !in LINE_PREFIX)
    && (if last then row.brk == "" && row.trailing == "" else IsBreak(row.brk))
    && (row.brk == "\r" ==> after == "" || after[0] != '\n')
    && (last ==> row.line != "")
  }

  ghost predicate RowsHold(rows: seq<Row>, first: bool) {
    rows != [] && RowHolds(rows[0], first, |rows| == 1, TextOf(rows[1..])) && (|rows| > 1 ==> RowsHold(rows[1..], false))
  }

  /** The pieces: every line at its place, every break at none. */
  function PiecesOf(rows: seq<Row>, at: nat): seq<Piece> {
    if rows == [] then []
    else
      var row := rows[0];
      (if row.line == "" then [] else [Piece(row.line, Some(at + |row.prefix|))])
      + (if row.brk == "" then [] else [Piece(row.brk, None)])
      + PiecesOf(rows[1..], at + |Written(row)|)
  }

  lemma {:induction false} SkippedIs(source: string, cursor: nat, end: nat, marks: set<char>, run: string)
    requires cursor + |run| <= end <= |source| && source[cursor..cursor + |run|] == run && AllIn(run, marks)
    requires cursor + |run| == end || source[cursor + |run|] !in marks
    ensures Skipped(source, cursor, end, marks) == |run|
    decreases |run|
  {
    if run != "" {
      assert source[cursor] == run[0] && run[0] in run;
      assert source[cursor + 1..cursor + 1 + |run[1..]|] == run[1..];
      SkippedIs(source, cursor + 1, end, marks, run[1..]);
    }
  }

  lemma BreakHere(value: string, from: nat, brk: string)
    requires IsBreak(brk) && At(value, brk, from)
    requires brk == "\r" ==> from + 1 == |value| || value[from + 1] != '\n'
    ensures NextBreak(value, from) == (from, brk)
  {
    var here := value[from..from + |brk|];
    assert here[0] == value[from];
    if |brk| == 2 { assert here[1] == value[from + 1]; } else { assert here == [value[from]]; }
  }

  lemma {:induction false} NextBreakAt(value: string, from: nat, n: nat, brk: string)
    requires from + n <= |value| && forall k | from <= k < from + n :: value[k] != '\r' && value[k] != '\n'
    requires if brk == "" then from + n == |value| else IsBreak(brk) && At(value, brk, from + n)
    requires brk == "\r" ==> from + n + 1 == |value| || value[from + n + 1] != '\n'
    ensures NextBreak(value, from) == (from + n, brk)
    decreases n
  {
    hide At, IsBreak;
    if n > 0 {
      NextBreakAt(value, from + 1, n - 1, brk);
    } else if brk != "" {
      BreakHere(value, from, brk);
    }
  }

  /** What stands in a text at a place, part after part. */
  lemma Parts(s: string, at: nat, a: string, b: string)
    requires At(s, a + b, at)
    ensures At(s, a, at) && At(s, b, at + |a|)
  {
    var whole := s[at..at + |a + b|];
    assert whole == a + b;
    assert s[at..at + |a|] == whole[..|a|] && s[at + |a|..at + |a| + |b|] == whole[|a|..];
  }

  lemma CharAt(s: string, at: nat, a: string)
    requires At(s, a, at) && a != ""
    ensures at < |s| && s[at] == a[0]
  {
    assert s[at..at + |a|][0] == a[0];
  }

  lemma PlainAt(s: string, at: nat, line: string)
    requires At(s, line, at) && '\r' !in line && '\n' !in line
    ensures forall k | at <= k < at + |line| :: s[k] != '\r' && s[k] != '\n'
  {
    forall k | at <= k < at + |line|
      ensures s[k] != '\r' && s[k] != '\n'
    {
      assert s[at..at + |line|][k - at] == s[k];
      assert line[k - at] in line;
    }
  }

  lemma InsideAt(s: string, at: nat, a: string)
    requires At(s, a, at)
    ensures at + |a| <= |s| && s[at..at + |a|] == a
  {}

  lemma EndAt(s: string, at: nat)
    requires at <= |s|
    ensures At(s, "", at)
  {}

  lemma PlainLine(row: Row, first: bool, last: bool, after: string)
    requires RowHolds(row, first, last, after)
    ensures '\r' !in row.line && '\n' !in row.line
  {}

  lemma BreakHolds(row: Row, first: bool, last: bool, after: string)
    requires RowHolds(row, first, last, after)
    ensures !last ==> IsBreak(row.brk)
    ensures row.brk == "\r" ==> after == "" || after[0] != '\n'
  {}

  lemma AfterBreak(value: string, at: nat, brk: string, after: string)
    requires At(value, after, at + |brk|) && at + |brk| + |after| == |value| && (brk == "\r" ==> after == "" || after[0] != '\n')
    ensures brk == "\r" ==> at + 1 == |value| || value[at + 1] != '\n'
  {
    if after != "" { CharAt(value, at + |brk|, after); }
  }

  /** The first row's words and break in the node's text. */
  lemma BreakOfRow(value: string, taken: nat, row: Row, rest: seq<Row>, first: bool)
    requires RowHolds(row, first, rest == [], TextOf(rest))
    requires At(value, row.line + row.brk + TextOf(rest), taken) && taken + |row.line + row.brk + TextOf(rest)| == |value|
    ensures NextBreak(value, taken) == (taken + |row.line|, row.brk)
    ensures value[taken..taken + |row.line|] == row.line && At(value, TextOf(rest), taken + |row.line| + |row.brk|)
  {
    hide At, IsBreak, AllIn, NextBreak, LINE_PREFIX, TRAILING, RowHolds, TextOf;
    PlainLine(row, first, rest == [], TextOf(rest));
    NothingLeft(rest);
    LastBreak(row, first, rest == [], TextOf(rest));
    Parts(value, taken, row.line + row.brk, TextOf(rest));
    Parts(value, taken, row.line, row.brk);
    InsideAt(value, taken, row.line);
    PlainAt(value, taken, row.line);
    BreakHolds(row, first, rest == [], TextOf(rest));
    hide TextOf, RowHolds;
    AfterBreak(value, taken + |row.line|, row.brk, TextOf(rest));
    NextBreakAt(value, taken, |row.line|, row.brk);
  }

  lemma NothingLeft(rest: seq<Row>)
    ensures rest == [] ==> TextOf(rest) == "" && SourceOf(rest) == ""
  {}

  /** The first row's parts in the source, and what follows it. */
  ghost predicate RowAt(source: string, cursor: nat, row: Row, more: string) {
    var at := cursor + |row.prefix|;
    && At(source, row.prefix, cursor) && At(source, row.line, at) && At(source, row.trailing, at + |row.line|)
    && At(source, row.brk, at + |row.line| + |row.trailing|) && At(source, more, cursor + |Written(row)|)
    && At(source, row.prefix + row.line + row.trailing, cursor)
  }

  lemma RowPartsAt(source: string, cursor: nat, row: Row, more: string)
    requires At(source, Written(row) + more, cursor)
    ensures RowAt(source, cursor, row, more)
  {
    hide At;
    var a, b, c := row.prefix, row.line, row.trailing;
    Parts(source, cursor, Written(row), more);
    Parts(source, cursor, a + b + c, row.brk);
    Parts(source, cursor, a + b, c);
    Parts(source, cursor, a, b);
  }

  /** The prefix is skipped; on a row without words what was trimmed goes with it. */
  lemma PrefixSkipped(source: string, end: nat, cursor: nat, row: Row, more: string, last: bool, after: string)
    requires RowHolds(row, false, last, after) && end <= |source| && RowAt(source, cursor, row, more) && cursor + |Written(row)| <= end
    ensures Skipped(source, cursor, end, LINE_PREFIX) == |row.prefix| + if row.line == "" then |row.trailing| else 0
  {
    var a, b, c := row.prefix, row.line, row.trailing;
    var at := cursor + |a|;
    hide Skipped, AllIn;
    if b != "" {
      CharAt(source, at, b);
      InsideAt(source, cursor, a);
      hide At;
      SkippedIs(source, cursor, end, LINE_PREFIX, a);
    } else {
      CharAt(source, at + |c|, row.brk);
      PrefixThenTrailing(a, c);
      assert a + b + c == a + c;
      InsideAt(source, cursor, a + c);
      hide At;
      SkippedIs(source, cursor, end, LINE_PREFIX, a + c);
    }
  }

  /** The blanks before a break are skipped. */
  lemma TrailingSkipped(source: string, end: nat, cursor: nat, row: Row, more: string, first: bool, after: string)
    requires RowHolds(row, first, false, after) && end <= |source| && RowAt(source, cursor, row, more) && cursor + |Written(row)| <= end
    ensures var at := cursor + |row.prefix| + |row.line|;
            Skipped(source, at, end, TRAILING) == |row.trailing| && Skipped(source, at + |row.trailing|, end, TRAILING) == 0
  {
    var at, c := cursor + |row.prefix| + |row.line|, row.trailing;
    hide Skipped, AllIn;
    CharAt(source, at + |c|, row.brk);
    InsideAt(source, at, c);
    hide At;
    SkippedIs(source, at, end, TRAILING, c);
    NoneSkipped(source, at + |c|, end, TRAILING);
  }

  lemma NoneSkipped(source: string, cursor: nat, end: nat, marks: set<char>)
    requires cursor < end <= |source| && source[cursor] !in marks
    ensures Skipped(source, cursor, end, marks) == 0
  {}

  lemma PrefixThenTrailing(a: string, c: string)
    requires AllIn(a, LINE_PREFIX) && AllIn(c, TRAILING)
    ensures AllIn(a + c, LINE_PREFIX)
  {}

  /** One line of the cut, from what is skipped before it and behind it. */
  lemma LineWith(source: string, end: nat, value: string, taken: nat, cursor: nat, first: bool, line: string, brk: string, p: nat, q: nat)
    requires taken + |line| <= |value| && NextBreak(value, taken) == (taken + |line|, brk) && value[taken..taken + |line|] == line
    requires p == if first then 0 else Skipped(source, cursor, end, LINE_PREFIX)
    requires line != "" ==> At(source, line, cursor + p) && cursor + p + |line| <= end
    requires brk != "" ==> q == Skipped(source, cursor + p + |line|, end, TRAILING) && At(source, brk, cursor + p + |line| + q)
    ensures var own := if line == "" then [] else [Piece(line, Some(cursor + p))];
            Line(source, end, value, taken, cursor, first)
            == if brk == "" then Last(own) else Next(own + [Piece(brk, None)], taken + |line| + |brk|, cursor + p + |line| + q + |brk|)
  {
    hide At, Skipped, NextBreak, IsBreak, LINE_PREFIX, TRAILING;
  }

  lemma RowLine(source: string, end: nat, value: string, taken: nat, cursor: nat, row: Row, more: string, first: bool, last: bool, after: string)
    requires taken + |row.line| <= |value| && end <= |source| && RowHolds(row, first, last, after)
    requires NextBreak(value, taken) == (taken + |row.line|, row.brk) && value[taken..taken + |row.line|] == row.line
    requires RowAt(source, cursor, row, more) && cursor + |Written(row)| <= end
    ensures var own := if row.line == "" then [] else [Piece(row.line, Some(cursor + |row.prefix|))];
            Line(source, end, value, taken, cursor, first)
            == if last then Last(own) else Next(own + [Piece(row.brk, None)], taken + |row.line| + |row.brk|, cursor + |Written(row)|)
  {
    hide At, Skipped, RowHolds, NextBreak, IsBreak, LINE_PREFIX, TRAILING, Line;
    LastBreak(row, first, last, after);
    FirstPrefix(row, first, last, after);
    if !first { PrefixSkipped(source, end, cursor, row, more, last, after); }
    if !last { TrailingSkipped(source, end, cursor, row, more, first, after); }
    var early := !first && row.line == "";
    LineWith(source, end, value, taken, cursor, first, row.line, row.brk,
             |row.prefix| + (if early then |row.trailing| else 0), if early then 0 else |row.trailing|);
  }

  /** What the cut makes of the first row. */
  lemma RowCut(source: string, end: nat, value: string, taken: nat, cursor: nat, row: Row, rest: seq<Row>, first: bool)
    requires taken <= |value| && end <= |source| && RowHolds(row, first, rest == [], TextOf(rest))
    requires At(value, row.line + row.brk + TextOf(rest), taken) && taken + |row.line + row.brk + TextOf(rest)| == |value|
    requires At(source, Written(row) + SourceOf(rest), cursor) && cursor + |Written(row) + SourceOf(rest)| == end
    ensures var own := if row.line == "" then [] else [Piece(row.line, Some(cursor + |row.prefix|))];
            Line(source, end, value, taken, cursor, first)
            == if rest == [] then Last(own) else Next(own + [Piece(row.brk, None)], taken + |row.line| + |row.brk|, cursor + |Written(row)|)
    ensures At(value, TextOf(rest), taken + |row.line| + |row.brk|) && At(source, SourceOf(rest), cursor + |Written(row)|)
  {
    hide At, Skipped, RowHolds, TextOf, SourceOf, NextBreak, IsBreak, LINE_PREFIX, TRAILING, Line, Written;
    BreakOfRow(value, taken, row, rest, first);
    RowPartsAt(source, cursor, row, SourceOf(rest));
    RowLine(source, end, value, taken, cursor, row, SourceOf(rest), first, rest == [], TextOf(rest));
  }

  lemma FirstPrefix(row: Row, first: bool, last: bool, after: string)
    requires RowHolds(row, first, last, after)
    ensures first ==> row.prefix == ""
    ensures last ==> row.line != "" && row.trailing == ""
  {}

  lemma FirstPieces(rows: seq<Row>, at: nat)
    requires rows != []
    ensures var row := rows[0];
            PiecesOf(rows, at)
            == (if row.line == "" then [] else [Piece(row.line, Some(at + |row.prefix|))])
               + (if row.brk == "" then [] else [Piece(row.brk, None)]) + PiecesOf(rows[1..], at + |Written(row)|)
  {}

  lemma NoPieces(at: nat)
    ensures PiecesOf([], at) == []
  {}

  lemma Lengths(rows: seq<Row>)
    requires rows != []
    ensures |TextOf(rows)| == |rows[0].line| + |rows[0].brk| + |TextOf(rows[1..])|
    ensures |SourceOf(rows)| == |Written(rows[0])| + |SourceOf(rows[1..])|
  {}

  lemma {:induction false} RowsCut(source: string, end: nat, value: string, taken: nat, cursor: nat, rows: seq<Row>, first: bool)
    requires taken <= |value| && end <= |source| && RowsHold(rows, first)
    requires At(value, TextOf(rows), taken) && taken + |TextOf(rows)| == |value|
    requires At(source, SourceOf(rows), cursor) && cursor + |SourceOf(rows)| == end
    ensures LinePieces(source, end, value, taken, cursor, first) == PiecesOf(rows, cursor)
    decreases |rows|
  {
    hide At, RowHolds, Line;
    var row, rest := rows[0], rows[1..];
    RowCut(source, end, value, taken, cursor, row, rest, first);
    LastBreak(row, first, rest == [], TextOf(rest));
    FirstPieces(rows, cursor);
    NoPieces(cursor + |Written(row)|);
    Lengths(rows);
    var own := if row.line == "" then [] else [Piece(row.line, Some(cursor + |row.prefix|))];
    hide PiecesOf, TextOf, SourceOf, Written;
    if rest != [] {
      RowsCut(source, end, value, taken + |row.line| + |row.brk|, cursor + |Written(row)|, rest, false);
      assert own + [Piece(row.brk, None)] + PiecesOf(rest, cursor + |Written(row)|) == PiecesOf(rows, cursor);
    } else {
      assert own + [] + [] == own;
    }
  }

  lemma LastBreak(row: Row, first: bool, last: bool, after: string)
    requires RowHolds(row, first, last, after)
    ensures row.brk == "" <==> last
  {}

  /**
   * A node that the source writes row by row, each behind its own prefix of
   * blanks and quote marks, is cut into its lines, every one at its place,
   * with the breaks between them: unless its words stand in the span in one
   * piece, which is then the only one.
   */
  lemma RowsArePlaced(before: string, rows: seq<Row>, after: string)
    requires RowsHold(rows, true)
    ensures var source, start, end := before + SourceOf(rows) + after, |before|, |before| + |SourceOf(rows)|;
            var pieces := Pieces(source, Some(start), Some(end), TextOf(rows));
            pieces == PiecesOf(rows, start) || (|pieces| == 1 && pieces[0].value == TextOf(rows) && pieces[0].base.Some?)
  {
    hide RowsHold, SpanBase, LinePieces, TextOf, SourceOf, PiecesOf;
    var source, start, end := before + SourceOf(rows) + after, |before|, |before| + |SourceOf(rows)|;
    assert source[start..end] == SourceOf(rows);
    assert TextOf(rows)[0..|TextOf(rows)|] == TextOf(rows);
    RowsCut(source, end, TextOf(rows), 0, start, rows, true);
  }
}
