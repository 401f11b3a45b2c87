/** Where an offset in a section's text stands in the page, frontmatter, id lines and CRs counted. */
module PageOffset {
  import opened Options
  import opened Text
  import opened ReflectionText

  /** The offset a line starts at: the lines before it, each with its LF. */
  function LineStart(page: seq<string>, line: nat): nat {
    if line == 0 then 0
    else if page == [] then 1 + LineStart([], line - 1)
    else |page[0]| + 1 + LineStart(page[1..], line - 1)
  }

  function OffsetInPage(markdown: string, sections: seq<Section>, index: int, offset: int): Option<nat> {
    var cuts := CutSections(markdown, sections);
    if !(0 <= index < |cuts|) || !(0 <= offset <= |cuts[index].text|) then None
    else OffsetOfCut(markdown, cuts[index], offset)
  }

  function OffsetOfCut(markdown: string, cut: Cut, offset: nat): Option<nat>
    requires offset <= |cut.text|
  {
    var before := cut.text[..offset];
    var row := |Split(before, '\n')| - 1;
    var column := offset - (LastIndexOf(before, '\n') + 1);
    if row >= |cut.lines| then None
    else
      var line, page := cut.lines[row], Split(markdown, '\n');
      var own := if line < |page| then StripCr(page[line]) else "";
      if column > |own| then None else Some(LineStart(page, line) + column)
  }

  method SumStart(page: seq<string>, line: nat) returns (start: nat)
    ensures start == LineStart(page, line)
  {
    start := 0;
    for i := 0 to line
      invariant start + LineStart(page[if i < |page| then i else |page|..], line - i) == LineStart(page, line)
    {
      if i < |page| { assert page[i..][1..] == page[i + 1..]; }
      start := start + (if i < |page| then |page[i]| else 0) + 1;
    }
  }

  /** The same, with the line's start summed in a loop. */
  method FindOffset(markdown: string, sections: seq<Section>, index: int, offset: int) returns (r: Option<nat>)
    ensures r == OffsetInPage(markdown, sections, index, offset)
  {
    hide StripCr, LineStart, Split, LastIndexOf, CutSections;
    var cuts := CutPage(markdown, sections);
    if !(0 <= index < |cuts|) || !(0 <= offset <= |cuts[index].text|) { return None; }
    var before := cuts[index].text[..offset];
    var row := |Split(before, '\n')| - 1;
    var column := offset - (LastIndexOf(before, '\n') + 1);
    if row >= |cuts[index].lines| { return None; }
    var line, page := cuts[index].lines[row], Split(markdown, '\n');
    var start := SumStart(page, line);
    var own := if line < |page| then StripCr(page[line]) else "";
    if column > |own| { return None; }
    return Some(start + column);
  }

  // ----- lines of a text

  lemma Slices(a: string, b: string, i: nat, pat: string)
    requires At(b, pat, i)
    ensures At(a + b, pat, |a| + i)
  {
    assert (a + b)[|a| + i..|a| + i + |pat|] == b[i..i + |pat|];
  }

  lemma {:induction false} JoinedLine(page: seq<string>, line: nat)
    requires line < |page|
    ensures var s, from := Join(page, '\n'), LineStart(page, line);
            && At(s, page[line], from)
            && (line + 1 < |page| ==> from + |page[line]| < |s| && s[from + |page[line]|] == '\n')
            && (line + 1 == |page| ==> from + |page[line]| == |s|)
  {
    var s := Join(page, '\n');
    if |page| > 1 {
      var head, tail := page[0] + ['\n'], Join(page[1..], '\n');
      assert s == head + tail;
      if line == 0 {
        assert s[..|page[0]|] == page[0];
      } else {
        JoinedLine(page[1..], line - 1);
        Slices(head, tail, LineStart(page[1..], line - 1), page[line]);
      }
    }
  }

  /** A line starts where the lines before it end, and a line but the last ends in an LF. */
  lemma LineStarts(s: string, line: nat)
    requires line < |Split(s, '\n')|
    ensures var page, from := Split(s, '\n'), LineStart(Split(s, '\n'), line);
            && At(s, page[line], from)
            && (line + 1 < |page| ==> from + |page[line]| < |s| && s[from + |page[line]|] == '\n')
            && (line + 1 == |page| ==> from + |page[line]| == |s|)
  {
    JoinSplit(s, '\n');
    JoinedLine(Split(s, '\n'), line);
  }

  lemma {:induction false} LinesFollow(page: seq<string>, a: nat, b: nat)
    requires a < b < |page|
    ensures LineStart(page, a) + |page[a]| + 1 <= LineStart(page, b)
  {
    if a > 0 { LinesFollow(page[1..], a - 1, b - 1); }
  }

  /** The row and column the page code counts for an offset. */
  lemma {:induction false} RowColumn(rows: seq<string>, offset: nat)
    requires |rows| >= 1 && (forall r | r in rows :: '\n' !in r) && offset <= |Join(rows, '\n')|
    ensures var before := Join(rows, '\n')[..offset];
            var row, column := |Split(before, '\n')| - 1, offset - (LastIndexOf(before, '\n') + 1);
            row < |rows| && 0 <= column <= |rows[row]| && offset == LineStart(rows, row) + column
  {
    var s, first := Join(rows, '\n'), rows[0];
    if offset <= |first| {
      FirstRow(rows, offset);
    } else {
      var rest := Join(rows[1..], '\n');
      assert s == first + ['\n'] + rest;
      var offset' := offset - |first| - 1;
      var before := rest[..offset'];
      assert s[..offset] == first + ['\n'] + before;
      RowColumn(rows[1..], offset');
      SplitAppend(first, before, '\n');
      SplitPlain(first, '\n');
      LastIndexAppend(first, before, '\n');
    }
  }

  lemma FirstRow(rows: seq<string>, offset: nat)
    requires |rows| >= 1 && '\n' !in rows[0] && offset <= |rows[0]|
    ensures offset <= |Join(rows, '\n')| && Split(Join(rows, '\n')[..offset], '\n') == [rows[0][..offset]]
    ensures LastIndexOf(Join(rows, '\n')[..offset], '\n') == -1
  {
    var before := rows[0][..offset];
    assert Join(rows, '\n')[..offset] == before;
    SubtextLacks(rows[0], before, rows[0][offset..], '\n');
    SplitPlain(before, '\n');
    LastIndexNone(before, '\n');
  }

  /** Line by line: every page line is the LF line with its CR, but the last line keeps a CR of its own. */
  ghost predicate LfLike(page: seq<string>, lines: seq<string>) {
    && |page| == |lines| && |page| >= 1
    && page[|page| - 1] == lines[|page| - 1]
    && forall i | 0 <= i < |page| - 1 :: lines[i] == StripCr(page[i])
  }

  lemma LfLikePrepend(first: string, page: seq<string>, lines: seq<string>)
    requires LfLike(page, lines)
    ensures LfLike([first] + page, [StripCr(first)] + lines)
  {
    hide StripCr;
  }

  /** A character added in front of the first line; a lone CR does not land before a line break. */
  lemma LfLikeGrow(c: char, page: seq<string>, lines: seq<string>)
    requires LfLike(page, lines) && (c == '\r' && |page| > 1 ==> page[0] != "")
    ensures LfLike([[c] + page[0]] + page[1..], [[c] + lines[0]] + lines[1..])
  {
    var p := [c] + page[0];
    assert page[0] != "" ==> StripCr(p) == [c] + StripCr(page[0]);
  }

  lemma {:induction false} LfLines(s: string)
    ensures LfLike(Split(s, '\n'), Split(Lf(s), '\n'))
  {
    hide LfLike, StripCr;
    if s == "" {
      LfLikeEmpty();
    } else if |s| > 1 && s[0] == '\r' && s[1] == '\n' {
      LfLines(s[2..]);
      var lf := "\n" + Lf(s[2..]);
      assert lf[1..] == Lf(s[2..]);
      CrlfLine(s);
      LfLikePrepend("\r", Split(s[2..], '\n'), Split(Lf(s[2..]), '\n'));
      StripOnly();
    } else {
      LfLines(s[1..]);
      var lf := [s[0]] + Lf(s[1..]);
      assert lf[1..] == Lf(s[1..]);
      var page, lines := Split(s[1..], '\n'), Split(Lf(s[1..]), '\n');
      if s[0] == '\n' {
        LfLikePrepend("", page, lines);
        StripOnly();
      } else {
        EmptyFirst(s[1..]);
        LfLikeGrow(s[0], page, lines);
      }
    }
  }

  lemma StripOnly()
    ensures StripCr("\r") == "" && StripCr("") == ""
  {}

  lemma LfLikeEmpty()
    ensures LfLike([""], [""])
  {}

  lemma CrlfLine(s: string)
    requires |s| > 1 && s[0] == '\r' && s[1] == '\n'
    ensures Split(s, '\n') == ["\r"] + Split(s[2..], '\n')
  {
    SplitPlain("\r", '\n');
    SplitAppend("\r", s[2..], '\n');
    assert s == "\r" + ['\n'] + s[2..];
  }

  lemma EmptyFirst(s: string)
    ensures |Split(s, '\n')| > 1 && Split(s, '\n')[0] == "" ==> s != "" && s[0] == '\n'
  {}

  // ----- where an offset points

  /** A cut reads its lines down the page, joined. */
  ghost predicate CutFrom(lines: seq<string>, cut: Cut) {
    && Increasing(cut.lines) && (forall i | 0 <= i < |cut.lines| :: cut.lines[i] < |lines|)
    && cut.text == Join(Rows(lines, cut.lines), '\n')
  }

  lemma {:induction false} CutsFrom(lines: seq<string>, sections: seq<Section>, starts: seq<int>, found: seq<nat>)
    requires |sections| == |starts| && OnPage(lines, starts) && OnPage(lines, found)
    ensures forall i | 0 <= i < |SectionCuts(lines, sections, starts, found)| ::
              CutFrom(lines, SectionCuts(lines, sections, starts, found)[i])
  {
    hide IsIdLine;
    if sections != [] {
      CutsFrom(lines, sections[1..], starts[1..], found);
    }
  }

  lemma CutIsFrom(markdown: string, sections: seq<Section>, index: nat)
    requires index < |CutSections(markdown, sections)|
    ensures CutFrom(PageLines(markdown), CutSections(markdown, sections)[index])
  {
    hide PageLines, BodyStart, Starts, IsIdLine;
    var lines := PageLines(markdown);
    var starts := Starts(lines, sections, BodyStart(lines));
    FoundOnPage(lines, starts);
    CutsFrom(lines, sections, starts, Found(starts));
  }

  /** A line break, CR included, starts at `r`. */
  predicate BreakAt(s: string, r: nat) {
    At(s, "\n", r) || At(s, "\r\n", r)
  }

  /** What a page offset of a text offset has to be: the same character, the line break, or the page's end. */
  predicate SamePlace(markdown: string, r: nat, text: string, offset: nat)
    requires offset <= |text|
  {
    if offset == |text| then r == |markdown| || BreakAt(markdown, r)
    else if text[offset] == '\n' then BreakAt(markdown, r)
    else r < |markdown| && markdown[r] == text[offset]
  }

  /** A page line seen through its LF line: at a column of both. */
  lemma LinePlace(markdown: string, line: nat, column: nat)
    requires line < |Split(markdown, '\n')|
    requires column <= |StripCr(Split(markdown, '\n')[line])|
    ensures var page, r := Split(markdown, '\n'), LineStart(Split(markdown, '\n'), line) + column;
            && r <= |markdown|
            && (column < |page[line]| ==> r < |markdown| && markdown[r] == page[line][column])
            && (column == |StripCr(page[line])| && line + 1 < |page| ==> BreakAt(markdown, r))
            && (column == |page[line]| && line + 1 == |page| ==> r == |markdown|)
  {
    hide Split, LineStart;
    var page, from := Split(markdown, '\n'), LineStart(Split(markdown, '\n'), line);
    LineStarts(markdown, line);
    var own := page[line];
    assert own == markdown[from..from + |own|];
    if column == |StripCr(own)| && line + 1 < |page| {
      if column < |own| {
        assert own[column] == '\r' == markdown[from + column];
        assert markdown[from + column..from + column + 2] == "\r\n";
      } else {
        assert markdown[from + column..from + column + 1] == "\n";
      }
    }
  }

  /** The row and column of an offset of a cut, and what the text holds there. */
  lemma CutRow(lines: seq<string>, cut: Cut, offset: nat) returns (row: nat, column: nat)
    requires CutFrom(lines, cut) && cut.lines != [] && offset <= |cut.text|
    requires forall l | l in lines :: '\n' !in l
    ensures row == |Split(cut.text[..offset], '\n')| - 1 && column == offset - (LastIndexOf(cut.text[..offset], '\n') + 1)
    ensures row < |cut.lines| && column <= |lines[cut.lines[row]]|
    ensures offset == LineStart(Rows(lines, cut.lines), row) + column
    ensures column < |lines[cut.lines[row]]| ==> offset < |cut.text| && cut.text[offset] == lines[cut.lines[row]][column]
    ensures column == |lines[cut.lines[row]]| && row + 1 < |cut.lines| ==> offset < |cut.text| && cut.text[offset] == '\n'
    ensures column == |lines[cut.lines[row]]| && row + 1 == |cut.lines| ==> offset == |cut.text|
  {
    hide Split, LineStart;
    var rows := Rows(lines, cut.lines);
    assert forall r | r in rows :: '\n' !in r by {
      assert forall i | 0 <= i < |rows| :: rows[i] in lines;
    }
    RowColumn(rows, offset);
    row, column := |Split(cut.text[..offset], '\n')| - 1, offset - (LastIndexOf(cut.text[..offset], '\n') + 1);
    JoinedLine(rows, row);
    var from := LineStart(rows, row);
    assert cut.text[from..from + |rows[row]|] == rows[row];
  }

  /** The last line of an increasing line map is the only one that may be the page's last. */
  lemma LastRow(cut: Cut, lines: seq<string>, row: nat)
    requires CutFrom(lines, cut) && row < |cut.lines| && cut.lines[row] == |lines| - 1
    ensures row + 1 == |cut.lines|
  {
    if row + 1 < |cut.lines| { NotLastRow(cut, lines, row); }
  }

  lemma NotLastRow(cut: Cut, lines: seq<string>, row: nat)
    requires CutFrom(lines, cut) && row + 1 < |cut.lines|
    ensures cut.lines[row] < |lines| - 1
  {
    assert cut.lines[row] < cut.lines[row + 1];
  }

  /** Whether `offset` is past the CR that ends a page without a last line break. */
  predicate PastLastCr(markdown: string, cut: Cut, offset: nat) {
    && cut.lines != [] && offset == |cut.text|
    && cut.lines[|cut.lines| - 1] == |Split(markdown, '\n')| - 1
    && markdown != "" && markdown[|markdown| - 1] == '\r'
  }

  lemma CutPlace(markdown: string, cut: Cut, offset: nat)
    requires CutFrom(PageLines(markdown), cut) && offset <= |cut.text|
    ensures OffsetOfCut(markdown, cut, offset).None? <==> cut.lines == [] || PastLastCr(markdown, cut, offset)
    ensures OffsetOfCut(markdown, cut, offset).Some? ==>
              SamePlace(markdown, OffsetOfCut(markdown, cut, offset).value, cut.text, offset)
  {
    hide Split, LineStart, StripCr, LastIndexOf, Join, Lf;
    var page, lines := Split(markdown, '\n'), PageLines(markdown);
    LfLines(markdown);
    if cut.lines == [] {
      NoRows(cut, lines);
    } else {
      var row, column := CutRow(lines, cut, offset);
      var line := cut.lines[row];
      StripShort(page[line]);
      LastPageLine(markdown);
      if line == |page| - 1 { LastRow(cut, lines, row); }
      if column <= |StripCr(page[line])| { LinePlace(markdown, line, column); }
    }
  }

  lemma NoRows(cut: Cut, lines: seq<string>)
    requires CutFrom(lines, cut) && cut.lines == []
    ensures cut.text == "" && Split("", '\n') == [""]
  {}

  lemma StripShort(line: string)
    ensures StripCr(line) <= line && |line| <= |StripCr(line)| + 1
    ensures |StripCr(line)| < |line| <==> line != "" && line[|line| - 1] == '\r'
  {}

  lemma LastPageLine(markdown: string)
    ensures var page := Split(markdown, '\n');
            var last := page[|page| - 1];
            (last != "" && last[|last| - 1] == '\r') <==> (markdown != "" && markdown[|markdown| - 1] == '\r')
  {
    hide Split, LineStart;
    var page := Split(markdown, '\n');
    LineStarts(markdown, |page| - 1);
    var last, from := page[|page| - 1], LineStart(page, |page| - 1);
    assert last == markdown[from..];
    if last == "" && |page| > 1 {
      LinesFollow(page, |page| - 2, |page| - 1);
      LineStarts(markdown, |page| - 2);
      LineAfter(page, |page| - 2);
      assert markdown[|markdown| - 1] == '\n';
    }
    if |page| == 1 { assert from == 0 by { FirstLineStart(page); } }
  }

  lemma FirstLineStart(page: seq<string>)
    ensures LineStart(page, 0) == 0
  {}

  lemma {:induction false} LineAfter(page: seq<string>, a: nat)
    requires a + 1 < |page|
    ensures LineStart(page, a + 1) == LineStart(page, a) + |page[a]| + 1
  {
    if a > 0 { LineAfter(page[1..], a - 1); }
  }

  /**
   * An offset of a section's text leads to the same character of the page,
   * or to the line break that ends the line, its CR included.
   */
  lemma OffsetSamePlace(markdown: string, sections: seq<Section>, index: int, offset: int)
    ensures OffsetInPage(markdown, sections, index, offset).Some? ==>
              && 0 <= index < |CutSections(markdown, sections)|
              && 0 <= offset <= |CutSections(markdown, sections)[index].text|
              && SamePlace(markdown, OffsetInPage(markdown, sections, index, offset).value,
                           CutSections(markdown, sections)[index].text, offset)
  {
    hide CutSections, OffsetOfCut, SamePlace, PageLines;
    var cuts := CutSections(markdown, sections);
    if 0 <= index < |cuts| && 0 <= offset <= |cuts[index].text| {
      CutIsFrom(markdown, sections, index);
      CutPlace(markdown, cuts[index], offset);
    }
  }

  /** An offset inside a section has no place in the page only for an empty top, or past a CR that ends the page. */
  lemma OffsetNowhere(markdown: string, sections: seq<Section>, index: nat, offset: nat)
    requires index < |CutSections(markdown, sections)| && offset <= |CutSections(markdown, sections)[index].text|
    ensures OffsetInPage(markdown, sections, index, offset).None?
        <==> var cut := CutSections(markdown, sections)[index];
             cut.lines == [] || PastLastCr(markdown, cut, offset)
  {
    hide CutSections, OffsetOfCut, PastLastCr, PageLines;
    CutIsFrom(markdown, sections, index);
    CutPlace(markdown, CutSections(markdown, sections)[index], offset);
  }

  lemma CutIncreases(markdown: string, cut: Cut, a: nat, b: nat)
    requires CutFrom(PageLines(markdown), cut) && a < b <= |cut.text|
    requires OffsetOfCut(markdown, cut, a).Some? && OffsetOfCut(markdown, cut, b).Some?
    ensures OffsetOfCut(markdown, cut, a).value < OffsetOfCut(markdown, cut, b).value
  {
    hide Split, LineStart, StripCr, LastIndexOf, Join, Lf;
    var page, lines := Split(markdown, '\n'), PageLines(markdown);
    LfLines(markdown);
    var rowA, columnA := CutRow(lines, cut, a);
    var rowB, columnB := CutRow(lines, cut, b);
    var rows := Rows(lines, cut.lines);
    if rowB < rowA { LinesFollow(rows, rowB, rowA); }
    if rowA < rowB {
      StripShort(page[cut.lines[rowA]]);
      LinesFollow(page, cut.lines[rowA], cut.lines[rowB]);
    }
  }

  /** Offsets of one section keep their order in the page. */
  lemma OffsetsIncrease(markdown: string, sections: seq<Section>, index: int, a: int, b: int)
    requires a < b
    requires OffsetInPage(markdown, sections, index, a).Some? && OffsetInPage(markdown, sections, index, b).Some?
    ensures OffsetInPage(markdown, sections, index, a).value < OffsetInPage(markdown, sections, index, b).value
  {
    hide CutSections, OffsetOfCut, PageLines;
    CutIsFrom(markdown, sections, index);
    CutIncreases(markdown, CutSections(markdown, sections)[index], a, b);
  }
}
