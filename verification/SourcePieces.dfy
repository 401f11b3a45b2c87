/** Cutting a rendered text node into pieces that each sit in the source in one piece. */
module SourcePieces {
  import opened Options
  import opened Text

  /** `source.slice(start, end)` for offsets that may lie past the end. */
  function Slice(source: string, start: nat, end: nat): string {
    var to := if end < |source| then end else |source|;
    if start < to then source[start..to] else ""
  }

  /** The place of a text node in the source, if it stands there in one piece. */
  function SpanBase(source: string, start: Option<nat>, end: Option<nat>, value: string): (base: Option<nat>)
    ensures base.Some? ==>
              && start.Some? && end.Some? && value != ""
              && start.value <= base.value && base.value + |value| <= end.value
              && At(source, value, base.value)
  {
    if start.None? || end.None? || value == "" then None
    else
      var slice := Slice(source, start.value, end.value);
      if slice == value then Some(start.value)
      else
        var at := Find(slice, value, 0);
        if at < 0 then None
        else
          SliceAt(source, start.value, end.value, value, at);
          Some(start.value + at)
  }

  /** A match in a slice is a match in the source. */
  lemma SliceAt(source: string, start: nat, end: nat, value: string, at: nat)
    requires At(Slice(source, start, end), value, at) && value != ""
    ensures start + at + |value| <= end && At(source, value, start + at)
  {
    var slice := Slice(source, start, end);
    var from, n := start + at, |value|;
    assert slice == source[start..start + |slice|];
    forall i | 0 <= i < n
      ensures source[from..from + n][i] == value[i]
    {
      assert slice[at..at + n][i] == slice[at + i];
      assert slice[at + i] == source[from + i];
    }
  }

  datatype Piece = Piece(value: string, base: Option<nat>)

  function Values(pieces: seq<Piece>): string {
    if pieces == [] then "" else pieces[0].value + Values(pieces[1..])
  }

  lemma {:induction false} ValuesJoin(a: seq<Piece>, b: seq<Piece>)
    ensures Values(a + b) == Values(a) + Values(b)
  {
    if a == [] {
      assert a + b == b;
    } else {
      assert (a + b)[1..] == a[1..] + b;
      ValuesJoin(a[1..], b);
    }
  }

  predicate IsBreak(s: string) {
    s == "\r\n" || s == "\r" || s == "\n"
  }

  /** The first line break at or after `from`, as the parser keeps it; empty at the end of the text. */
  function NextBreak(value: string, from: nat): (r: (nat, string))
    requires from <= |value|
    ensures from <= r.0 && r.0 + |r.1| <= |value| && value[r.0..r.0 + |r.1|] == r.1
    ensures r.1 == "" ==> r.0 == |value|
    ensures r.1 != "" ==> IsBreak(r.1)
    ensures forall i | from <= i < r.0 :: value[i] != '\r' && value[i] != '\n'
    decreases |value| - from
  {
    if from == |value| then (from, "")
    else if value[from] == '\r' && from + 1 < |value| && value[from + 1] == '\n' then (from, "\r\n")
    else if value[from] == '\r' || value[from] == '\n' then
      assert value[from..from + 1] == [value[from]];
      (from, [value[from]])
    else NextBreak(value, from + 1)
  }

  /** How many characters of `marks` stand at `cursor`, `end` at most. */
  function Skipped(source: string, cursor: nat, end: nat, marks: set<char>): (n: nat)
    decreases |source| - cursor
  {
    if cursor < end && cursor < |source| && source[cursor] in marks then 1 + Skipped(source, cursor + 1, end, marks) else 0
  }

  const LINE_PREFIX := {' ', '\t', '>'}
  const TRAILING := {' ', '\t'}

  /** A placed piece is the source at its base, inside the node's span. */
  ghost predicate True(source: string, start: nat, end: nat, p: Piece) {
    p.base.Some? ==> At(source, p.value, p.base.value) && start <= p.base.value && p.base.value + |p.value| <= end
  }

  /** What every list of pieces keeps: they are true, placed ones stand one after another, and an unplaced one is a line break. */
  ghost predicate Anchored(source: string, start: nat, end: nat, pieces: seq<Piece>, cursor: nat) {
    && (forall i | 0 <= i < |pieces| :: True(source, start, end, pieces[i]))
    && (forall i | 0 <= i < |pieces| && pieces[i].base.Some? :: pieces[i].base.value + |pieces[i].value| <= cursor)
    && (forall i, j | 0 <= i < j < |pieces| && pieces[i].base.Some? && pieces[j].base.Some? ::
          pieces[i].base.value + |pieces[i].value| <= pieces[j].base.value)
    && (forall i | 0 <= i < |pieces| && pieces[i].base.None? :: IsBreak(pieces[i].value))
  }

  lemma Place(source: string, start: nat, end: nat, pieces: seq<Piece>, cursor: nat, line: string)
    requires Anchored(source, start, end, pieces, cursor)
    requires At(source, line, cursor) && start <= cursor && cursor + |line| <= end
    ensures Anchored(source, start, end, pieces + [Piece(line, Some(cursor))], cursor + |line|)
  {}

  lemma Break(source: string, start: nat, end: nat, pieces: seq<Piece>, cursor: nat, cursor': nat, brk: string)
    requires Anchored(source, start, end, pieces, cursor) && cursor <= cursor' && IsBreak(brk)
    ensures Anchored(source, start, end, pieces + [Piece(brk, None)], cursor')
  {}

  lemma Further(source: string, start: nat, end: nat, pieces: seq<Piece>, cursor: nat, cursor': nat)
    requires Anchored(source, start, end, pieces, cursor) && cursor <= cursor'
    ensures Anchored(source, start, end, pieces, cursor')
  {}

  /** The last piece may be the rest of the node, unplaced. */
  ghost predicate AnchoredButLast(source: string, start: nat, end: nat, pieces: seq<Piece>) {
    || AllAnchored(source, start, end, pieces)
    || (pieces != [] && pieces[|pieces| - 1].base.None? && AllAnchored(source, start, end, pieces[..|pieces| - 1]))
  }

  ghost predicate AllAnchored(source: string, start: nat, end: nat, pieces: seq<Piece>) {
    exists cursor :: Anchored(source, start, end, pieces, cursor)
  }

  /** What is left of the node when a line cannot be placed: one unplaced piece. */
  function Rest(value: string, taken: nat): seq<Piece>
    requires taken <= |value|
  {
    if taken < |value| then [Piece(value[taken..], None)] else []
  }

  /** What one line of the node comes to: the last pieces, or its own and where the next line starts. */
  datatype Step = Last(pieces: seq<Piece>) | Next(pieces: seq<Piece>, taken: nat, cursor: nat)

  /** One line and the break after it; the first line of the node has no prefix to skip. */
  function Line(source: string, end: nat, value: string, taken: nat, cursor: nat, first: bool): (s: Step)
    requires taken <= |value|
    ensures s.Next? ==> taken < s.taken <= |value|
  {
    var (lineEnd, brk) := NextBreak(value, taken);
    var line := value[taken..lineEnd];
    var at := if first then cursor else cursor + Skipped(source, cursor, end, LINE_PREFIX);
    if line != "" && (!At(source, line, at) || at + |line| > end) then Last(Rest(value, taken))
    else
      var placed := if line == "" then [] else [Piece(line, Some(at))];
      var after := at + |line|;
      if brk == "" then Last(placed)
      else
        var at' := after + Skipped(source, after, end, TRAILING);
        if !At(source, brk, at') then Last(placed + Rest(value, lineEnd))
        else Next(placed + [Piece(brk, None)], lineEnd + |brk|, at' + |brk|)
  }

  /** The pieces of the node's lines from `taken` on, placed from `cursor` on. */
  function LinePieces(source: string, end: nat, value: string, taken: nat, cursor: nat, first: bool): seq<Piece>
    requires taken <= |value|
    decreases |value| - taken
  {
    match Line(source, end, value, taken, cursor, first)
    case Last(pieces) => pieces
    case Next(pieces, taken', cursor') => pieces + LinePieces(source, end, value, taken', cursor', false)
  }

  /** One turn of the cutting loop. */
  method CutLine(source: string, end: nat, value: string, taken: nat, cursor: nat, first: bool) returns (s: Step)
    requires taken <= |value|
    ensures s == Line(source, end, value, taken, cursor, first)
  {
    hide At, Skipped, IsBreak;
    var pieces: seq<Piece> := [];
    var at := cursor;
    var (lineEnd, brk) := NextBreak(value, taken);
    var line := value[taken..lineEnd];
    if !first { at := at + Skipped(source, at, end, LINE_PREFIX); }
    if line != "" {
      if !At(source, line, at) || at + |line| > end { return Last(Rest(value, taken)); }
      pieces := pieces + [Piece(line, Some(at))];
      at := at + |line|;
    }
    if brk == "" { return Last(pieces); }
    at := at + Skipped(source, at, end, TRAILING);
    if !At(source, brk, at) { return Last(pieces + Rest(value, lineEnd)); }
    return Next(pieces + [Piece(brk, None)], lineEnd + |brk|, at + |brk|);
  }

  method CutLines(source: string, start: nat, end: nat, value: string) returns (pieces: seq<Piece>)
    ensures pieces == LinePieces(source, end, value, 0, start, true)
  {
    hide Line;
    pieces := [];
    var cursor: nat, taken: nat, first := start, 0, true;
    while true
      invariant taken <= |value|
      invariant pieces + LinePieces(source, end, value, taken, cursor, first) == LinePieces(source, end, value, 0, start, true)
      decreases |value| - taken
    {
      var step := CutLine(source, end, value, taken, cursor, first);
      pieces := pieces + step.pieces;
      if step.Last? { return; }
      taken, cursor, first := step.taken, step.cursor, false;
    }
  }

  lemma LineAnchored(source: string, start: nat, end: nat, value: string, taken: nat, cursor: nat, first: bool, before: seq<Piece>)
    requires taken <= |value| && start <= cursor && Anchored(source, start, end, before, cursor)
    ensures match Line(source, end, value, taken, cursor, first)
            case Last(pieces) =>
              AnchoredButLast(source, start, end, before + pieces) && Values(pieces) == value[taken..]
            case Next(pieces, taken', cursor') =>
              Anchored(source, start, end, before + pieces, cursor') && cursor <= cursor'
              && Values(pieces) == value[taken..taken']
  {
    hide At, Values, Anchored, True, AnchoredButLast, IsBreak, Skipped, Rest, NextBreak;
    var (lineEnd, brk) := NextBreak(value, taken);
    var line := value[taken..lineEnd];
    var at := if first then cursor else cursor + Skipped(source, cursor, end, LINE_PREFIX);
    Further(source, start, end, before, cursor, at);
    if line != "" && (!At(source, line, at) || at + |line| > end) {
      RestAnchored(source, start, end, value, taken, at, before);
    } else {
      var placed := if line == "" then [] else [Piece(line, Some(at))];
      if line != "" { Place(source, start, end, before, at, line); } else { assert before + [] == before; }
      PlacedValues(line, at);
      var after := at + |line|;
      if brk == "" {
        Whole(source, start, end, before + placed, after);
        assert value[taken..] == line;
      } else {
        BreakAnchored(source, start, end, value, lineEnd, brk, after, before, placed);
        assert value[taken..] == line + value[lineEnd..];
        assert value[taken..lineEnd + |brk|] == line + brk;
      }
    }
  }

  lemma BreakAnchored(source: string, start: nat, end: nat, value: string, lineEnd: nat, brk: string, after: nat, before: seq<Piece>, placed: seq<Piece>)
    requires lineEnd <= |value| && IsBreak(brk)
    requires start <= after && Anchored(source, start, end, before + placed, after)
    ensures var at' := after + Skipped(source, after, end, TRAILING);
            if !At(source, brk, at') then
              && AnchoredButLast(source, start, end, before + (placed + Rest(value, lineEnd)))
              && Values(placed + Rest(value, lineEnd)) == Values(placed) + value[lineEnd..]
            else
              && Anchored(source, start, end, before + (placed + [Piece(brk, None)]), at' + |brk|)
              && Values(placed + [Piece(brk, None)]) == Values(placed) + brk
  {
    hide At, Values, Anchored, True, AnchoredButLast, IsBreak, Skipped, Rest;
    var at' := after + Skipped(source, after, end, TRAILING);
    Further(source, start, end, before + placed, after, at');
    if !At(source, brk, at') {
      RestAnchored(source, start, end, value, lineEnd, at', before + placed);
      ValuesJoin(placed, Rest(value, lineEnd));
      assert before + placed + Rest(value, lineEnd) == before + (placed + Rest(value, lineEnd));
    } else {
      var so := [Piece(brk, None)];
      Break(source, start, end, before + placed, at', at' + |brk|, brk);
      ValuesJoin(placed, so);
      OneValue(Piece(brk, None));
      assert before + placed + so == before + (placed + so);
    }
  }

  /** The pieces from a point of the cut on, after `before`, keep what every list of pieces keeps. */
  lemma {:induction false} LinesAnchored(source: string, start: nat, end: nat, value: string, taken: nat, cursor: nat, first: bool, before: seq<Piece>)
    requires taken <= |value| && start <= cursor && Anchored(source, start, end, before, cursor)
    ensures var pieces := LinePieces(source, end, value, taken, cursor, first);
            AnchoredButLast(source, start, end, before + pieces) && Values(pieces) == value[taken..]
    decreases |value| - taken
  {
    hide At, Values, Anchored, AnchoredButLast, Line;
    LineAnchored(source, start, end, value, taken, cursor, first, before);
    match Line(source, end, value, taken, cursor, first) {
      case Last(_) =>
      case Next(pieces, taken', cursor') =>
        LinesAnchored(source, start, end, value, taken', cursor', false, before + pieces);
        var rest := LinePieces(source, end, value, taken', cursor', false);
        ValuesJoin(pieces, rest);
        assert before + pieces + rest == before + (pieces + rest);
        assert value[taken..] == value[taken..taken'] + value[taken'..];
    }
  }

  lemma RestAnchored(source: string, start: nat, end: nat, value: string, taken: nat, cursor: nat, before: seq<Piece>)
    requires taken <= |value| && Anchored(source, start, end, before, cursor)
    ensures AnchoredButLast(source, start, end, before + Rest(value, taken)) && Values(Rest(value, taken)) == value[taken..]
  {
    if taken < |value| {
      WithRest(source, start, end, before, cursor, Piece(value[taken..], None));
      OneValue(Piece(value[taken..], None));
    } else {
      Whole(source, start, end, before, cursor);
      assert before + [] == before;
    }
  }

  lemma OneValue(p: Piece)
    ensures Values([p]) == p.value
  {
    assert [p][1..] == [] && p.value + "" == p.value;
  }

  lemma PlacedValues(line: string, at: nat)
    ensures Values(if line == "" then [] else [Piece(line, Some(at))]) == line
  {
    OneValue(Piece(line, Some(at)));
  }

  lemma Whole(source: string, start: nat, end: nat, pieces: seq<Piece>, cursor: nat)
    requires Anchored(source, start, end, pieces, cursor)
    ensures AnchoredButLast(source, start, end, pieces)
  {}

  lemma WithRest(source: string, start: nat, end: nat, pieces: seq<Piece>, cursor: nat, rest: Piece)
    requires Anchored(source, start, end, pieces, cursor) && rest.base.None?
    ensures AnchoredButLast(source, start, end, pieces + [rest])
  {
    assert (pieces + [rest])[..|pieces + [rest]| - 1] == pieces;
  }

  /** The pieces of a parsed text node. */
  function Pieces(source: string, start: Option<nat>, end: Option<nat>, value: string): seq<Piece> {
    var whole := SpanBase(source, start, end, value);
    if whole.Some? || start.None? || end.None? then [Piece(value, whole)]
    else LinePieces(source, end.value, value, 0, start.value, true)
  }

  method SpanPieces(source: string, start: Option<nat>, end: Option<nat>, value: string) returns (pieces: seq<Piece>)
    ensures pieces == Pieces(source, start, end, value)
  {
    var whole := SpanBase(source, start, end, value);
    if whole.Some? || start.None? || end.None? { return [Piece(value, whole)]; }
    pieces := CutLines(source, start.value, end.value, value);
  }

  /**
   * The pieces put together are the node's text. Every placed piece is the
   * source slice at its base and lies inside the node's span, placed pieces
   * stand one after another, and what is not placed is a line break or the
   * one last piece.
   */
  lemma PiecesAreFaithful(source: string, start: nat, end: nat, value: string)
    ensures Values(Pieces(source, Some(start), Some(end), value)) == value
    ensures AnchoredButLast(source, start, end, Pieces(source, Some(start), Some(end), value))
  {
    hide LinePieces, At;
    var whole := SpanBase(source, Some(start), Some(end), value);
    if whole.Some? {
      OneValue(Piece(value, whole));
      assert Anchored(source, start, end, [Piece(value, whole)], whole.value + |value|);
    } else {
      assert Anchored(source, start, end, [], start);
      LinesAnchored(source, start, end, value, 0, start, true, []);
      assert value[0..] == value;
      var pieces := Pieces(source, Some(start), Some(end), value);
      assert [] + pieces == pieces;
    }
  }

  /** A node whose words stand in its span in one piece is placed whole. */
  lemma WholeNode(source: string, start: nat, end: nat, value: string, base: nat)
    requires value != "" && start <= base && base + |value| <= end && At(source, value, base)
    ensures |Pieces(source, Some(start), Some(end), value)| == 1
    ensures Pieces(source, Some(start), Some(end), value)[0].base.Some?
  {
    var slice := Slice(source, start, end);
    var to := if end < |source| then end else |source|;
    assert slice == source[start..to] && base + |value| <= to;
    assert slice[base - start..base - start + |value|] == source[base..base + |value|];
    assert At(slice, value, base - start);
  }
}
