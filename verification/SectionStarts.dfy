/** Which line of the page each section starts at, said of the lines, and what its cut is then. */
module SectionStarts {
  import opened Options
  import opened Text
  import opened ReflectionText

  // ----- which lines are headings

  function Spaces(n: nat): (s: string)
    ensures |s| == n && forall i | 0 <= i < n :: s[i] == ' '
  {
    if n == 0 then "" else " " + Spaces(n - 1)
  }

  /** Up to three spaces, two hashes, and then nothing, or a blank and more on the same line. */
  ghost predicate HeadingLine(line: string, n: nat, rest: string) {
    && n <= 3 && line == Spaces(n) + "##" + rest
    && (rest == "" || (IsTab(rest[0]) && forall c | c in rest :: !EndsLine(c)))
  }

  lemma IndentIs(n: nat, more: string)
    requires n <= 3 && (more == "" || more[0] != ' ')
    ensures Indent(Spaces(n) + more) == n
  {
    var line := Spaces(n) + more;
    assert forall i | 0 <= i < n :: line[i] == ' ';
    assert line[n..] == more;
    assert more != "" ==> line[n] == more[0];
  }

  lemma IndentSpaces(line: string)
    ensures Indent(line) <= 3 && Indent(line) <= |line| && line == Spaces(Indent(line)) + line[Indent(line)..]
  {
    assert line[..Indent(line)] == Spaces(Indent(line));
  }

  /** A line is a heading of the second level exactly when it has that shape. */
  lemma LevelTwoIs(lines: seq<string>, at: int)
    ensures IsLevelTwo(lines, at) <==> 0 <= at < |lines| && exists n, rest :: HeadingLine(lines[at], n, rest)
  {
    if 0 <= at < |lines| {
      var line := lines[at];
      if HeadingText(line).Some? {
        IndentSpaces(line);
        var i := Indent(line);
        assert line[i..i + 2] == "##" && line == Spaces(i) + "##" + line[i + 2..];
        assert HeadingLine(line, i, line[i + 2..]);
      }
      if n, rest :| HeadingLine(line, n, rest) { HeadingTextIs(line, n, rest, "", ""); }
    }
  }

  ghost predicate AllHashes(s: string) {
    forall c | c in s :: c == '#'
  }

  lemma {:induction false} HashesDrop(u: string, hashes: string)
    requires AllHashes(hashes) && (u == "" || u[|u| - 1] != '#')
    ensures DropHashes(u + hashes) == u
  {
    if hashes == "" {
      assert u + hashes == u;
    } else {
      var more := hashes[..|hashes| - 1];
      assert hashes[|hashes| - 1] in hashes && forall c | c in more :: c in hashes;
      assert (u + hashes)[..|u + hashes| - 1] == u + more;
      HashesDrop(u, more);
    }
  }

  /** The heading's text: what follows the hashes, trimmed, without a closing run of hashes that a blank sets off. */
  lemma HeadingTextIs(line: string, n: nat, rest: string, u: string, hashes: string)
    requires HeadingLine(line, n, rest)
    ensures HeadingText(line).Some?
    ensures Trim(rest) == u + hashes && AllHashes(hashes) && (u == "" || u[|u| - 1] != '#') ==>
              HeadingText(line) == Some(if hashes == "" || u == "" then u else if IsTab(u[|u| - 1]) then Trim(u) else u + hashes)
  {
    hide Trim;
    var more := "##" + rest;
    assert line == Spaces(n) + more;
    IndentIs(n, more);
    assert line[n..n + 2] == "##" && line[n + 2..] == rest;
    if Trim(rest) == u + hashes && AllHashes(hashes) && (u == "" || u[|u| - 1] != '#') { HashesDrop(u, hashes); }
  }

  ghost predicate IdComment(t: string, hex: string) {
    t == "<!-- r:" + hex + " -->" && 4 <= |hex| <= 16 && forall i | 0 <= i < |hex| :: IsHex(hex[i])
  }

  lemma CommentHolds(t: string, hex: string)
    requires IdComment(t, hex)
    ensures 15 <= |t| <= 27 && t[..7] == "<!-- r:" && t[|t| - 4..] == " -->" && (forall i | 7 <= i < |t| - 4 :: IsHex(t[i]))
    ensures Trimmed(t)
  {
    assert forall i | 7 <= i < |t| - 4 :: t[i] == hex[i - 7];
  }

  lemma CommentOf(t: string)
    requires 15 <= |t| <= 27 && t[..7] == "<!-- r:" && t[|t| - 4..] == " -->" && forall i | 7 <= i < |t| - 4 :: IsHex(t[i])
    ensures IdComment(t, t[7..|t| - 4])
  {
    assert t == t[..7] + t[7..|t| - 4] + t[|t| - 4..];
  }

  /** An id line holds the comment with 4 to 16 lower-case hex digits, and blanks around it at most. */
  lemma IdLineIs(line: string)
    ensures IsIdLine(line) <==> exists a, hex, b :: line == a + ("<!-- r:" + hex + " -->") + b && Blank(a) && Blank(b)
                                                     && IdComment("<!-- r:" + hex + " -->", hex)
  {
    hide Trim, Blank, IsHex, IdComment, Trimmed;
    if IsIdLine(line) {
      var a, b := TrimParts(line);
      var t := Trim(line);
      CommentOf(t);
      CommentIs(t, t[7..|t| - 4]);
    }
    if a, hex, b :| line == a + ("<!-- r:" + hex + " -->") + b && Blank(a) && Blank(b) && IdComment("<!-- r:" + hex + " -->", hex) {
      var t := "<!-- r:" + hex + " -->";
      CommentHolds(t, hex);
      TrimIs(a, t, b);
    }
  }

  lemma CommentIs(t: string, hex: string)
    requires IdComment(t, hex)
    ensures t == "<!-- r:" + hex + " -->"
  {}

  // ----- where a section starts

  predicate ReadsLike(lines: seq<string>, heading: string, k: int) {
    0 <= k < |lines| && HeadingText(lines[k]) == Some(heading)
  }

  /** The section's own line when that is a heading not cut yet; else the first line from the cursor on with its text; -1 when there is none. */
  ghost predicate IsStart(lines: seq<string>, section: Section, cursor: nat, at: int) {
    var own := section.line - 1;
    if cursor <= own && IsLevelTwo(lines, own) then at == own
    else
      || (at == -1 && forall k | cursor <= k < |lines| :: !ReadsLike(lines, section.heading, k))
      || (cursor <= at && ReadsLike(lines, section.heading, at) && forall k | cursor <= k < at :: !ReadsLike(lines, section.heading, k))
  }

  lemma {:induction false} HeadingFound(lines: seq<string>, heading: string, from: nat)
    ensures var r := FindHeading(lines, heading, from);
            || (r == -1 && forall k | from <= k < |lines| :: !ReadsLike(lines, heading, k))
            || (from <= r && ReadsLike(lines, heading, r) && forall k | from <= k < r :: !ReadsLike(lines, heading, k))
    decreases if from < |lines| then |lines| - from else 0
  {
    hide HeadingText;
    if from < |lines| { HeadingFound(lines, heading, from + 1); }
  }

  /** The start the loop takes is the one start there is. */
  lemma StartIs(lines: seq<string>, section: Section, cursor: nat, at: int)
    ensures StartOf(lines, section, cursor) == at <==> IsStart(lines, section, cursor, at)
  {
    hide HeadingText, FindHeading;
    HeadingFound(lines, section.heading, cursor);
  }

  /** Where the search for the `i`-th section begins: behind the last heading found. */
  function Cursor(starts: seq<int>, body: nat, i: nat): nat
    requires i <= |starts|
  {
    if i == 0 then body else if starts[i - 1] >= 0 then starts[i - 1] + 1 else Cursor(starts, body, i - 1)
  }

  lemma {:induction false} CursorShift(starts: seq<int>, body: nat, i: nat)
    requires 0 < i <= |starts|
    ensures Cursor(starts[1..], if starts[0] >= 0 then starts[0] + 1 else body, i - 1) == Cursor(starts, body, i)
  {
    if i > 1 { CursorShift(starts, body, i - 1); }
  }

  /** Every section starts where it should, each searched for from where the one before left off. */
  ghost predicate RightStarts(lines: seq<string>, sections: seq<Section>, body: nat, starts: seq<int>) {
    |starts| == |sections| && forall i | 0 <= i < |sections| :: IsStart(lines, sections[i], Cursor(starts, body, i), starts[i])
  }

  lemma RightStep(lines: seq<string>, sections: seq<Section>, body: nat, starts: seq<int>)
    requires |starts| == |sections| > 0
    ensures RightStarts(lines, sections, body, starts)
       <==> IsStart(lines, sections[0], body, starts[0])
            && RightStarts(lines, sections[1..], if starts[0] >= 0 then starts[0] + 1 else body, starts[1..])
  {
    hide IsStart;
    var later, rest, next := sections[1..], starts[1..], if starts[0] >= 0 then starts[0] + 1 else body;
    forall i | 0 <= i < |later|
      ensures later[i] == sections[i + 1] && rest[i] == starts[i + 1] && Cursor(rest, next, i) == Cursor(starts, body, i + 1)
    {
      CursorShift(starts, body, i + 1);
    }
    if IsStart(lines, sections[0], body, starts[0]) && RightStarts(lines, later, next, rest) {
      forall i | 0 <= i < |sections|
        ensures IsStart(lines, sections[i], Cursor(starts, body, i), starts[i])
      {
        if i > 0 { assert IsStart(lines, later[i - 1], Cursor(rest, next, i - 1), rest[i - 1]); }
      }
    }
    if RightStarts(lines, sections, body, starts) {
      forall i | 0 <= i < |later|
        ensures IsStart(lines, later[i], Cursor(rest, next, i), rest[i])
      {
        assert IsStart(lines, sections[i + 1], Cursor(starts, body, i + 1), starts[i + 1]);
      }
    }
  }

  /** The starts found are the right ones, and no other list is. */
  lemma {:induction false} StartsAre(lines: seq<string>, sections: seq<Section>, body: nat, starts: seq<int>)
    requires |starts| == |sections|
    ensures starts == Starts(lines, sections, body) <==> RightStarts(lines, sections, body, starts)
    decreases |sections|
  {
    hide IsStart, StartOf;
    if sections != [] {
      hide RightStarts;
      StartIs(lines, sections[0], body, starts[0]);
      StartsAre(lines, sections[1..], if starts[0] >= 0 then starts[0] + 1 else body, starts[1..]);
      RightStep(lines, sections, body, starts);
      assert starts == [starts[0]] + starts[1..];
    }
  }

  // ----- the cut of each section

  function OneFound(start: int): seq<nat> {
    if start >= 0 then [start] else []
  }

  lemma FoundStep(starts: seq<int>)
    requires starts != []
    ensures Found(starts) == OneFound(starts[0]) + Found(starts[1..])
  {}

  lemma FoundNone(starts: seq<int>)
    ensures Found([]) == [] && [] + Found(starts) == Found(starts)
  {}

  lemma Associates(a: seq<nat>, b: seq<nat>, c: seq<nat>)
    ensures a + (b + c) == a + b + c
  {}

  lemma {:induction false} FoundJoin(a: seq<int>, b: seq<int>)
    ensures Found(a + b) == Found(a) + Found(b)
  {
    hide Found, OneFound;
    if a == [] {
      FoundNone(b);
      assert a + b == b;
    } else {
      var rest := a[1..];
      FoundJoin(rest, b);
      FoundStep(a);
      FoundStep(a + b);
      assert (a + b)[1..] == rest + b && (a + b)[0] == a[0];
      Associates(OneFound(a[0]), Found(rest), Found(b));
    }
  }

  /** One cut for each section that starts somewhere, in order, from its start to the next one's. */
  lemma {:induction false} CutAt(lines: seq<string>, sections: seq<Section>, starts: seq<int>, found: seq<nat>, i: nat)
    requires |sections| == |starts| && OnPage(lines, starts) && OnPage(lines, found) && i < |starts| && starts[i] >= 0
    ensures var cuts, j := SectionCuts(lines, sections, starts, found), |Found(starts[..i])|;
            j < |cuts| && cuts[j] == CutOf(lines, sections[i].id, sections[i].heading, SectionLines(lines, starts[i], EndOf(found, starts[i], |lines|)))
    decreases i
  {
    hide EndOf, SectionLines, CutOf;
    if i > 0 {
      assert starts[1..][..i - 1] == starts[..i][1..];
      CutAt(lines, sections[1..], starts[1..], found, i - 1);
    }
  }

  lemma {:induction false} CutCount(lines: seq<string>, sections: seq<Section>, starts: seq<int>, found: seq<nat>)
    requires |sections| == |starts| && OnPage(lines, starts) && OnPage(lines, found)
    ensures |SectionCuts(lines, sections, starts, found)| == |Found(starts)|
  {
    hide EndOf, SectionLines, CutOf;
    if sections != [] { CutCount(lines, sections[1..], starts[1..], found); }
  }

  /** The end of the section that starts at `found[j]`. */
  function NextOf(found: seq<nat>, j: nat, n: nat): nat {
    if j + 1 < |found| then found[j + 1] else n
  }

  /** The cut holds the heading's line first, and the lines up to `end` but an id line right under it. */
  ghost predicate CutHolds(lines: seq<string>, cut: Cut, section: Section, start: nat, end: nat) {
    && start < end <= |lines| && cut.id == section.id && cut.heading == section.heading
    && cut.lines != [] && cut.lines[0] == start && Increasing(cut.lines) && (forall i | 0 <= i < |cut.lines| :: cut.lines[i] < |lines|)
    && (forall k: nat :: k in cut.lines <==> start <= k < end && !(k == start + 1 && IsIdLine(lines[k])))
    && cut.text == Join(Rows(lines, cut.lines), '\n')
  }

  lemma LinesHold(lines: seq<string>, start: nat, end: nat)
    requires start < end <= |lines|
    ensures var at := SectionLines(lines, start, end);
            && at != [] && at[0] == start && Increasing(at)
            && forall k: nat :: k in at <==> start <= k < end && !(k == start + 1 && IsIdLine(lines[k]))
  {
    hide IsIdLine;
    var at := SectionLines(lines, start, end);
    if end - start > 1 && IsIdLine(lines[start + 1]) {
      forall k: nat
        ensures k in at <==> start <= k < end && k != start + 1
      {
        if start <= k < end && k != start + 1 { assert at[if k == start then 0 else k - start - 1] == k; }
      }
    } else {
      forall k: nat
        ensures k in at <==> start <= k < end
      {
        if start <= k < end { assert at[k - start] == k; }
      }
    }
  }

  lemma SectionLinesAre(lines: seq<string>, section: Section, start: nat, end: nat)
    requires start < end <= |lines|
    ensures CutHolds(lines, CutOf(lines, section.id, section.heading, SectionLines(lines, start, end)), section, start, end)
  {
    hide IsIdLine, Join, Increasing, Rows;
    LinesHold(lines, start, end);
    hide SectionLines;
  }

  /** Every section that starts somewhere has its cut, in order behind the page's top: its own heading and lines, up to the next start. */
  lemma SectionHasCut(markdown: string, sections: seq<Section>, i: nat)
    requires i < |sections| && Starts(PageLines(markdown), sections, BodyStart(PageLines(markdown)))[i] >= 0
    ensures var lines, cuts := PageLines(markdown), CutSections(markdown, sections);
            var starts := Starts(lines, sections, BodyStart(lines));
            var found, j := Found(starts), |Found(starts[..i])|;
            && |cuts| == 1 + |found| && j < |found| && found[j] == starts[i]
            && CutHolds(lines, cuts[1 + j], sections[i], starts[i], NextOf(found, j, |lines|))
  {
    hide PageLines, BodyStart, Starts, Found, IsIdLine, CutHolds, CutOf, SectionLines, SectionCuts, IsLevelTwo;
    var lines, cuts := PageLines(markdown), CutSections(markdown, sections);
    var body := BodyStart(lines);
    var starts := Starts(lines, sections, body);
    var found, j := Found(starts), |Found(starts[..i])|;
    FoundOnPage(lines, starts);
    StartsIncrease(lines, sections, body);
    CutAt(lines, sections, starts, found, i);
    CutCount(lines, sections, starts, found);
    FoundHere(starts, i);
    EndIsNext(found, j, |lines|);
    SectionLinesAre(lines, sections[i], starts[i], NextOf(found, j, |lines|));
    TopFirst(markdown, sections);
  }

  lemma FoundHere(starts: seq<int>, i: nat)
    requires i < |starts| && starts[i] >= 0
    ensures var j := |Found(starts[..i])|; j < |Found(starts)| && Found(starts)[j] == starts[i]
  {
    hide Found;
    var later := starts[i..];
    assert starts == starts[..i] + later && later[0] == starts[i];
    FoundJoin(starts[..i], later);
    FoundStep(later);
  }

  lemma TopFirst(markdown: string, sections: seq<Section>)
    ensures var lines := PageLines(markdown);
            var starts := Starts(lines, sections, BodyStart(lines));
            OnPage(lines, Found(starts)) && CutSections(markdown, sections)[1..] == SectionCuts(lines, sections, starts, Found(starts))
            && CutSections(markdown, sections) != []
  {
    hide PageLines, BodyStart, Starts, Found, CutOf, SectionCuts;
    var lines := PageLines(markdown);
    FoundOnPage(lines, Starts(lines, sections, BodyStart(lines)));
  }

  /** The server's lines are headings of the body, further and further down. */
  ghost predicate RightLines(lines: seq<string>, sections: seq<Section>, body: nat) {
    && (forall i | 0 <= i < |sections| :: body <= sections[i].line - 1 && IsLevelTwo(lines, sections[i].line - 1))
    && forall i, j | 0 <= i < j < |sections| :: sections[i].line < sections[j].line
  }

  function OwnLines(sections: seq<Section>): (r: seq<int>)
    ensures |r| == |sections| && forall i | 0 <= i < |r| :: r[i] == sections[i].line - 1
  {
    if sections == [] then [] else [sections[0].line - 1] + OwnLines(sections[1..])
  }

  lemma OwnLinesAreStarts(lines: seq<string>, sections: seq<Section>, body: nat)
    requires RightLines(lines, sections, body)
    ensures Starts(lines, sections, body) == OwnLines(sections)
    ensures |Found(OwnLines(sections))| == |sections|
    ensures forall i | 0 <= i < |sections| :: OwnLines(sections)[i] >= 0
  {
    hide IsLevelTwo, Starts;
    var starts := OwnLines(sections);
    forall i | 0 <= i < |sections|
      ensures IsStart(lines, sections[i], Cursor(starts, body, i), starts[i])
    {
      LevelTwoOnPage(lines, starts[i]);
      assert starts[i] == sections[i].line - 1;
      if i > 0 { assert sections[i - 1].line < sections[i].line; LevelTwoOnPage(lines, sections[i - 1].line - 1); }
    }
    StartsAre(lines, sections, body, starts);
    forall i | 0 <= i < |sections| ensures starts[i] >= 0 { LevelTwoOnPage(lines, starts[i]); }
    AllFound(starts);
  }

  lemma LevelTwoOnPage(lines: seq<string>, at: int)
    requires IsLevelTwo(lines, at)
    ensures 0 <= at < |lines|
  {}

  lemma {:induction false} AllFound(starts: seq<int>)
    requires forall i | 0 <= i < |starts| :: starts[i] >= 0
    ensures |Found(starts)| == |starts|
  {
    if starts != [] { AllFound(starts[1..]); }
  }

  /** When the server's lines are increasing headings of the body, every section is cut at its own line, in order, and nothing else is cut. */
  lemma RightLinesCut(markdown: string, sections: seq<Section>, i: nat)
    requires RightLines(PageLines(markdown), sections, BodyStart(PageLines(markdown))) && i < |sections|
    ensures var lines, cuts := PageLines(markdown), CutSections(markdown, sections);
            && |cuts| == 1 + |sections|
            && CutHolds(lines, cuts[1 + i], sections[i], sections[i].line - 1,
                        if i + 1 < |sections| then sections[i + 1].line - 1 else |lines|)
  {
    hide PageLines, BodyStart, Starts, Found, RightLines, CutHolds, CutSections;
    var lines := PageLines(markdown);
    OwnLinesAreStarts(lines, sections, BodyStart(lines));
    var starts := OwnLines(sections);
    AllFound(starts[..i]);
    SectionHasCut(markdown, sections, i);
    if i + 1 < |sections| {
      AllFound(starts[..i + 1]);
      FoundHere(starts, i + 1);
    }
  }
}
