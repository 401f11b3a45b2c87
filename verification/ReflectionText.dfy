/**
 * A page cut into its sections, and where a character of a section's text
 * stands in the page.
 */
module ReflectionText {
  import opened Options
  import opened Text

  // ----- lines

  /** The text with every CRLF read as LF. */
  function Lf(s: string): string {
    if s == "" then ""
    else if |s| > 1 && s[0] == '\r' && s[1] == '\n' then "\n" + Lf(s[2..])
    else [s[0]] + Lf(s[1..])
  }

  /** A line without the CR that ends it. */
  function StripCr(line: string): string {
    if line != "" && line[|line| - 1] == '\r' then line[..|line| - 1] else line
  }

  predicate IsHex(c: char) {
    '0' <= c <= '9' || 'a' <= c <= 'f'
  }

  /** A section id line: `<!-- r:` and 4 to 16 hex digits and ` -->`, alone on its line. */
  predicate IsIdLine(line: string) {
    var t := Trim(line);
    && 15 <= |t| <= 27
    && t[..7] == "<!-- r:" && t[|t| - 4..] == " -->"
    && forall i | 7 <= i < |t| - 4 :: IsHex(t[i])
  }

  predicate IsTab(c: char) {
    c == ' ' || c == '\t'
  }

  predicate EndsLine(c: char) {
    c == '\n' || c == '\r' || c == '\U{2028}' || c == '\U{2029}'
  }

  /** The number of spaces a line starts with, three at most. */
  function Indent(line: string): nat {
    if line == "" || line[0] != ' ' then 0
    else if |line| == 1 || line[1] != ' ' then 1
    else if |line| == 2 || line[2] != ' ' then 2
    else 3
  }

  function DropHashes(s: string): string {
    if s != "" && s[|s| - 1] == '#' then DropHashes(s[..|s| - 1]) else s
  }

  /** The text of a level-two ATX heading line, `None` for any other line. */
  function HeadingText(line: string): Option<string> {
    var i := Indent(line);
    if !At(line, "##", i) then None
    else
      var rest := line[i + 2..];
      if rest != "" && (!IsTab(rest[0]) || exists c | c in rest :: EndsLine(c)) then None
      else
        var text := Trim(rest);
        var without := DropHashes(text);
        Some(if |without| == |text| then text
             else if without == "" then ""
             else if IsTab(without[|without| - 1]) then Trim(without)
             else text)
  }

  predicate IsLevelTwo(lines: seq<string>, at: int) {
    0 <= at < |lines| && HeadingText(lines[at]).Some?
  }

  // ----- the frontmatter

  predicate IsTabs(s: string) {
    forall c | c in s :: IsTab(c)
  }

  /** Whether line `k` closes a frontmatter block; a last line does so without a CR. */
  predicate ClosesFront(lines: seq<string>, k: nat)
    requires k < |lines|
  {
    var line := if k < |lines| - 1 then StripCr(lines[k]) else lines[k];
    "---" <= line && IsTabs(line[3..])
  }

  function FrontEnd(lines: seq<string>, k: nat): (r: nat)
    requires k <= |lines|
    ensures k <= r <= |lines|
    decreases |lines| - k
  {
    if k == |lines| || ClosesFront(lines, k) then k else FrontEnd(lines, k + 1)
  }

  /**
   * The zero-based line the body starts on: 0 without frontmatter, else the
   * line after the closing fence. A fence that ends the page is counted as
   * the body's only line.
   */
  function BodyStart(lines: seq<string>): (r: nat)
    requires |lines| >= 1
    ensures r < |lines|
  {
    if |lines| < 3 || StripCr(lines[0]) != "---" then 0
    else
      var k := FrontEnd(lines, 2);
      if k == |lines| then 0 else if k == |lines| - 1 then k else k + 1
  }

  /** A frontmatter block ends at line `k`, the first that closes one. */
  ghost predicate FrontAt(lines: seq<string>, k: nat) {
    && 2 <= k < |lines| && StripCr(lines[0]) == "---" && ClosesFront(lines, k)
    && forall j | 2 <= j < k :: !ClosesFront(lines, j)
  }

  lemma {:induction false} FrontEndIsFirst(lines: seq<string>, from: nat, k: nat)
    requires from <= k <= |lines| && (k < |lines| ==> ClosesFront(lines, k)) && forall j | from <= j < k :: !ClosesFront(lines, j)
    ensures FrontEnd(lines, from) == k
    decreases k - from
  {
    hide ClosesFront;
    if from < k { FrontEndIsFirst(lines, from + 1, k); }
  }

  /** The body starts on the line behind the frontmatter's, exactly when there is one: a fence on the last line is the body itself. */
  lemma BodyAfterFence(lines: seq<string>, k: nat)
    requires FrontAt(lines, k)
    ensures BodyStart(lines) == k + 1 <==> k + 1 < |lines|
    ensures k + 1 == |lines| ==> BodyStart(lines) == k
  {
    hide ClosesFront;
    FrontEndIsFirst(lines, 2, k);
  }

  /** Without frontmatter, and only then, the body starts on the first line. */
  lemma BodyFromTop(lines: seq<string>)
    requires |lines| >= 1
    ensures BodyStart(lines) == 0 <==> forall k: nat :: !FrontAt(lines, k)
  {
    hide ClosesFront;
    if |lines| >= 3 && StripCr(lines[0]) == "---" {
      var k := FrontEnd(lines, 2);
      FrontEndFirst(lines, 2);
      if k < |lines| { assert FrontAt(lines, k); }
    }
  }

  lemma {:induction false} FrontEndFirst(lines: seq<string>, from: nat)
    requires from <= |lines|
    ensures var k := FrontEnd(lines, from);
            (k < |lines| ==> ClosesFront(lines, k)) && forall j | from <= j < k :: !ClosesFront(lines, j)
    decreases |lines| - from
  {
    hide ClosesFront;
    if from < |lines| && !ClosesFront(lines, from) { FrontEndFirst(lines, from + 1); }
  }

  /** A page that ends with its fence has the fence for its body. */
  lemma FenceIsBody()
    ensures BodyStart(["---", "title: a", "---"]) == 2 && BodyStart(["---", "title: a", "---", ""]) == 3
  {
    assert "---"[3..] == "" && StripCr("---") == "---";
    var page, open := ["---", "title: a", "---"], ["---", "title: a", "---", ""];
    assert FrontAt(page, 2) && FrontAt(open, 2);
    BodyAfterFence(page, 2);
    BodyAfterFence(open, 2);
  }

  // ----- the cut

  datatype Section = Section(id: Option<string>, heading: string, line: int)

  /** A section as it is shown, and for each line the one of the page it comes from, counted from 0. */
  datatype Cut = Cut(id: Option<string>, heading: string, text: string, lines: seq<nat>)

  const TOP_SECTION := "_top"

  function FindHeading(lines: seq<string>, heading: string, from: nat): (r: int)
    ensures r == -1 || (from <= r < |lines| && HeadingText(lines[r]) == Some(heading))
    decreases if from < |lines| then |lines| - from else 0
  {
    if from >= |lines| then -1
    else if HeadingText(lines[from]) == Some(heading) then from
    else FindHeading(lines, heading, from + 1)
  }

  /** Where a heading is: at its own line when that is a heading not cut yet, else at the next line that reads like it. */
  function StartOf(lines: seq<string>, section: Section, cursor: nat): (r: int)
    ensures r == -1 || (cursor <= r && IsLevelTwo(lines, r))
  {
    var at := section.line - 1;
    if at < cursor || !IsLevelTwo(lines, at) then FindHeading(lines, section.heading, cursor) else at
  }

  /** Every start is a line of the page, or negative for a heading that is nowhere. */
  ghost predicate OnPage(lines: seq<string>, starts: seq<int>) {
    forall i | 0 <= i < |starts| :: starts[i] < |lines|
  }

  function Starts(lines: seq<string>, sections: seq<Section>, cursor: nat): (r: seq<int>)
    ensures |r| == |sections| && OnPage(lines, r)
  {
    if sections == [] then []
    else
      var at := StartOf(lines, sections[0], cursor);
      [at] + Starts(lines, sections[1..], if at >= 0 then at + 1 else cursor)
  }

  function Found(starts: seq<int>): seq<nat> {
    if starts == [] then []
    else (if starts[0] >= 0 then [starts[0]] else []) + Found(starts[1..])
  }

  lemma {:induction false} FoundOnPage(lines: seq<string>, starts: seq<int>)
    requires OnPage(lines, starts)
    ensures OnPage(lines, Found(starts))
  {
    if starts != [] {
      assert OnPage(lines, starts[1..]);
      FoundOnPage(lines, starts[1..]);
    }
  }

  /** The first found start after `start`, or the end of the page. */
  function EndOf(found: seq<nat>, start: nat, n: nat): (r: nat)
    requires start < n && forall i | 0 <= i < |found| :: found[i] < n
    ensures start < r <= n
  {
    if found == [] then n else if found[0] > start then found[0] else EndOf(found[1..], start, n)
  }

  function Numbers(from: nat, to: nat): (r: seq<nat>)
    ensures |r| == (if from < to then to - from else 0)
    ensures forall i | 0 <= i < |r| :: r[i] == from + i
  {
    if to <= from then [] else seq(to - from, i requires 0 <= i => from + i)
  }

  function Rows(lines: seq<string>, at: seq<nat>): (r: seq<string>)
    requires forall i | 0 <= i < |at| :: at[i] < |lines|
    ensures |r| == |at| && forall i | 0 <= i < |r| :: r[i] == lines[at[i]]
  {
    if at == [] then [] else [lines[at[0]]] + Rows(lines, at[1..])
  }

  /** The lines of a section: its id line, right under the heading, is left out. */
  function SectionLines(lines: seq<string>, start: nat, end: nat): (r: seq<nat>)
    requires start < end <= |lines|
    ensures forall i | 0 <= i < |r| :: start <= r[i] < end
  {
    if end - start > 1 && IsIdLine(lines[start + 1]) then [start] + Numbers(start + 2, end)
    else Numbers(start, end)
  }

  function CutOf(lines: seq<string>, id: Option<string>, heading: string, at: seq<nat>): Cut
    requires forall i | 0 <= i < |at| :: at[i] < |lines|
  {
    Cut(id, heading, Join(Rows(lines, at), '\n'), at)
  }

  function SectionCuts(lines: seq<string>, sections: seq<Section>, starts: seq<int>, found: seq<nat>): seq<Cut>
    requires |sections| == |starts| && OnPage(lines, starts) && OnPage(lines, found)
  {
    if sections == [] then []
    else
      var rest := SectionCuts(lines, sections[1..], starts[1..], found);
      if starts[0] < 0 then rest
      else
        var at := SectionLines(lines, starts[0], EndOf(found, starts[0], |lines|));
        [CutOf(lines, sections[0].id, sections[0].heading, at)] + rest
  }

  function PageLines(markdown: string): (lines: seq<string>)
    ensures |lines| >= 1
  {
    Split(Lf(markdown), '\n')
  }

  /** The page cut into its sections, the text before the first heading first. */
  function CutSections(markdown: string, sections: seq<Section>): seq<Cut> {
    var lines := PageLines(markdown);
    var body := BodyStart(lines);
    var starts := Starts(lines, sections, body);
    var found := Found(starts);
    FoundOnPage(lines, starts);
    var topEnd := if found == [] then |lines| else found[0];
    [CutOf(lines, Some(TOP_SECTION), "", Numbers(body, topEnd))] + SectionCuts(lines, sections, starts, found)
  }

  // ----- the cut as the page code runs it

  lemma StartsStep(lines: seq<string>, sections: seq<Section>, k: nat, cursor: nat)
    requires k < |sections|
    ensures var at := StartOf(lines, sections[k], cursor);
            Starts(lines, sections[k..], cursor)
            == [at] + Starts(lines, sections[k + 1..], if at >= 0 then at + 1 else cursor)
  {
    hide StartOf;
    assert sections[k..][1..] == sections[k + 1..];
  }

  method FindStarts(lines: seq<string>, sections: seq<Section>, body: nat) returns (starts: seq<int>)
    ensures starts == Starts(lines, sections, body)
  {
    hide HeadingText, FindHeading, Starts;
    starts := [];
    var cursor: nat := body;
    for k := 0 to |sections|
      invariant starts + Starts(lines, sections[k..], cursor) == Starts(lines, sections, body)
    {
      StartsStep(lines, sections, k, cursor);
      var at := sections[k].line - 1;
      if at < cursor || !IsLevelTwo(lines, at) {
        at := FindHeading(lines, sections[k].heading, cursor);
      }
      starts := starts + [at];
      if at >= 0 { cursor := at + 1; }
    }
    assert sections[|sections|..] == [];
    StartsNone(lines, cursor);
  }

  lemma StartsNone(lines: seq<string>, cursor: nat)
    ensures Starts(lines, [], cursor) == []
  {}

  method CutPage(markdown: string, sections: seq<Section>) returns (out: seq<Cut>)
    ensures out == CutSections(markdown, sections)
  {
    var lines := PageLines(markdown);
    var body := BodyStart(lines);
    var starts := FindStarts(lines, sections, body);
    var found := Found(starts);
    FoundOnPage(lines, starts);
    var topEnd := if found == [] then |lines| else found[0];
    out := [CutOf(lines, Some(TOP_SECTION), "", Numbers(body, topEnd))];
    for k := 0 to |sections|
      invariant out + SectionCuts(lines, sections[k..], starts[k..], found) == CutSections(markdown, sections)
    {
      assert sections[k..][1..] == sections[k + 1..] && starts[k..][1..] == starts[k + 1..];
      var start := starts[k];
      if start >= 0 {
        var cut := CutOne(lines, sections[k], start, EndOf(found, start, |lines|));
        out := out + [cut];
      }
    }
  }

  /** One section's own lines and their numbers, the id line spliced out of both. */
  method CutOne(lines: seq<string>, section: Section, start: nat, end: nat) returns (cut: Cut)
    requires start < end <= |lines|
    ensures cut == CutOf(lines, section.id, section.heading, SectionLines(lines, start, end))
  {
    hide IsIdLine, Join;
    var own, at := lines[start..end], Numbers(start, end);
    ReadRows(lines, own, at);
    if |own| > 1 && IsIdLine(own[1]) {
      own := own[..1] + own[2..];
      at := at[..1] + at[2..];
      assert at == [start] + Numbers(start + 2, end);
      ReadRows(lines, own, at);
    }
    cut := Cut(section.id, section.heading, Join(own, '\n'), at);
  }

  lemma ReadRows(lines: seq<string>, own: seq<string>, at: seq<nat>)
    requires |own| == |at| && forall i | 0 <= i < |at| :: at[i] < |lines| && own[i] == lines[at[i]]
    ensures own == Rows(lines, at)
  {}

  // ----- every body line is in one section's line map

  ghost predicate Increasing(s: seq<nat>) {
    forall i, j | 0 <= i < j < |s| :: s[i] < s[j]
  }

  lemma {:induction false} StartsIncrease(lines: seq<string>, sections: seq<Section>, cursor: nat)
    ensures var found := Found(Starts(lines, sections, cursor));
            && Increasing(found)
            && forall i | 0 <= i < |found| :: cursor <= found[i] && IsLevelTwo(lines, found[i])
  {
    if sections != [] {
      var at := StartOf(lines, sections[0], cursor);
      StartsIncrease(lines, sections[1..], if at >= 0 then at + 1 else cursor);
      var found, starts := Found(Starts(lines, sections, cursor)), Starts(lines, sections, cursor);
      assert starts[1..] == Starts(lines, sections[1..], if at >= 0 then at + 1 else cursor);
    }
  }

  /** The line maps of the cuts, one after another. */
  function LineMap(cuts: seq<Cut>): seq<nat> {
    if cuts == [] then [] else cuts[0].lines + LineMap(cuts[1..])
  }

  /** An id line directly under a heading the cut starts a section at. */
  ghost predicate DroppedId(lines: seq<string>, found: seq<nat>, k: nat) {
    0 < k < |lines| && IsIdLine(lines[k]) && (k - 1) in found
  }

  lemma NotBoth(line: string)
    requires HeadingText(line).Some?
    ensures !IsIdLine(line)
  {
    hide TrimStart, TrimEnd;
    var i := Indent(line);
    IndentBlank(line);
    assert line == line[..i] + line[i..] && line[i] == '#';
    TrimStartIs(line[..i], line[i..]);
    var b := TrimKeepsHead(line[i..]);
    TrimStartIs("", line[i..]);
    assert "" + line[i..] == line[i..];
    assert Trim(line) == Trim(line[i..]);
    assert Trim(line)[0] == '#';
  }

  lemma IndentBlank(line: string)
    ensures Indent(line) <= |line| && Blank(line[..Indent(line)])
  {}

  /** The line maps are increasing, and hold exactly the body lines but the dropped id lines. */
  ghost predicate Covers(lines: seq<string>, found: seq<nat>, map': seq<nat>, from: nat) {
    && Increasing(map')
    && forall k: nat :: k in map' <==> from <= k < |lines| && !DroppedId(lines, found, k)
  }

  lemma CoversFrom(lines: seq<string>, found: seq<nat>, map': seq<nat>, from: nat)
    requires Covers(lines, found, map', from)
    ensures forall i | 0 <= i < |map'| :: from <= map'[i]
  {
    forall i | 0 <= i < |map'|
      ensures from <= map'[i]
    {
      assert map'[i] in map';
    }
  }

  lemma SectionCovers(lines: seq<string>, found: seq<nat>, i: nat, rest: seq<nat>)
    requires Increasing(found) && i < |found| && (forall j | 0 <= j < |found| :: IsLevelTwo(lines, found[j]))
    requires Covers(lines, found, rest, if i + 1 < |found| then found[i + 1] else |lines|)
    ensures var end := if i + 1 < |found| then found[i + 1] else |lines|;
            found[i] < end <= |lines| && Covers(lines, found, SectionLines(lines, found[i], end) + rest, found[i])
  {
    hide IsIdLine, HeadingText;
    var start, end := found[i], if i + 1 < |found| then found[i + 1] else |lines|;
    var own := SectionLines(lines, start, end);
    SectionHolds(lines, found, i);
    CoversFrom(lines, found, rest, end);
    hide SectionLines, DroppedId, IsLevelTwo;
    assert Increasing(own + rest);
    assert forall k: nat :: k in own + rest <==> k in own || k in rest;
  }

  lemma SectionHolds(lines: seq<string>, found: seq<nat>, i: nat)
    requires Increasing(found) && i < |found| && (forall j | 0 <= j < |found| :: IsLevelTwo(lines, found[j]))
    ensures var end := if i + 1 < |found| then found[i + 1] else |lines|;
            found[i] < end <= |lines| && Increasing(SectionLines(lines, found[i], end))
            && (forall k: nat :: k in SectionLines(lines, found[i], end) <==> found[i] <= k < end && !DroppedId(lines, found, k))
            && !DroppedId(lines, found, end)
  {
    hide IsIdLine, HeadingText;
    var start, end := found[i], if i + 1 < |found| then found[i + 1] else |lines|;
    var own := SectionLines(lines, start, end);
    forall k: nat | k == start || k == end
      ensures !DroppedId(lines, found, k)
    {
      if k < |lines| { NotBoth(lines[k]); }
    }
    forall k: nat
      ensures k in own <==> start <= k < end && !DroppedId(lines, found, k)
    {
      if start < k < end && (k - 1) in found {
        var j :| 0 <= j < |found| && found[j] == k - 1;
        assert j == i;
      }
      if start <= k < end && k != start + 1 {
        assert own[if |own| == end - start then k - start else if k == start then 0 else k - start - 1] == k;
      }
      if k == start + 1 < end && !IsIdLine(lines[k]) { assert own[1] == k; }
    }
  }

  /** The cuts of the sections found from the `i`-th on cover the page from there to its end. */
  lemma {:induction false} SectionsCover(lines: seq<string>, sections: seq<Section>, starts: seq<int>, found: seq<nat>, i: nat)
    requires |sections| == |starts| && OnPage(lines, starts) && OnPage(lines, found) && Increasing(found)
    requires forall j | 0 <= j < |found| :: IsLevelTwo(lines, found[j])
    requires i <= |found| && Found(starts) == found[i..]
    ensures Covers(lines, found, LineMap(SectionCuts(lines, sections, starts, found)),
                   if i < |found| then found[i] else |lines|)
  {
    hide IsIdLine, IsLevelTwo, SectionLines;
    if starts != [] {
      if starts[0] < 0 {
        assert Found(starts[1..]) == found[i..];
        SectionsCover(lines, sections[1..], starts[1..], found, i);
      } else {
        assert found[i..][0] == starts[0] && found[i..][1..] == found[i + 1..];
        SectionsCover(lines, sections[1..], starts[1..], found, i + 1);
        EndIsNext(found, i, |lines|);
        SectionCovers(lines, found, i, LineMap(SectionCuts(lines, sections[1..], starts[1..], found)));
        var cuts := SectionCuts(lines, sections, starts, found);
        assert cuts[1..] == SectionCuts(lines, sections[1..], starts[1..], found);
      }
    }
  }

  lemma EndIsNext(found: seq<nat>, i: nat, n: nat)
    requires Increasing(found) && i < |found| && forall j | 0 <= j < |found| :: found[j] < n
    ensures EndOf(found, found[i], n) == if i + 1 < |found| then found[i + 1] else n
  {
    EndSkips(found, found[i], n, 0, i);
  }

  lemma {:induction false} EndSkips(found: seq<nat>, start: nat, n: nat, k: nat, i: nat)
    requires Increasing(found) && k <= i < |found| && found[i] == start && forall j | 0 <= j < |found| :: found[j] < n
    ensures EndOf(found[k..], start, n) == if i + 1 < |found| then found[i + 1] else n
    decreases i - k
  {
    assert found[k..][1..] == found[k + 1..];
    if k < i {
      EndSkips(found, start, n, k + 1, i);
    }
  }

  /**
   * Every line of the body is in exactly one section's line map, and the
   * maps read down the page, except the id line directly under a heading,
   * which is in none.
   */
  lemma BodyLinesCovered(markdown: string, sections: seq<Section>)
    ensures var lines := PageLines(markdown);
            var body := BodyStart(lines);
            Covers(lines, Found(Starts(lines, sections, body)), LineMap(CutSections(markdown, sections)), body)
  {
    hide IsIdLine, HeadingText, PageLines, BodyStart, Starts, Covers, CutOf;
    var lines := PageLines(markdown);
    var body := BodyStart(lines);
    var starts := Starts(lines, sections, body);
    var found := Found(starts);
    FoundOnPage(lines, starts);
    PageCovers(lines, sections, body);
    CutLines(lines, Some(TOP_SECTION), "", Numbers(body, if found == [] then |lines| else found[0]));
    var cuts := CutSections(markdown, sections);
    assert cuts[1..] == SectionCuts(lines, sections, starts, found);
  }

  lemma CutLines(lines: seq<string>, id: Option<string>, heading: string, at: seq<nat>)
    requires forall i | 0 <= i < |at| :: at[i] < |lines|
    ensures CutOf(lines, id, heading, at).lines == at
  {}

  lemma PageCovers(lines: seq<string>, sections: seq<Section>, body: nat)
    requires body < |lines|
    ensures OnPage(lines, Found(Starts(lines, sections, body)))
    ensures var starts := Starts(lines, sections, body);
            var found := Found(starts);
            var topEnd := if found == [] then |lines| else found[0];
            Covers(lines, found, Numbers(body, topEnd) + LineMap(SectionCuts(lines, sections, starts, found)), body)
  {
    hide IsIdLine, HeadingText, Starts, Covers, SectionCuts, IsLevelTwo, LineMap, Found, Numbers;
    var starts := Starts(lines, sections, body);
    var found := Found(starts);
    StartsIncrease(lines, sections, body);
    FoundOnPage(lines, starts);
    assert found[0..] == found;
    SectionsCover(lines, sections, starts, found, 0);
    TopCovers(lines, found, body, if found == [] then |lines| else found[0], LineMap(SectionCuts(lines, sections, starts, found)));
  }

  lemma TopCovers(lines: seq<string>, found: seq<nat>, body: nat, topEnd: nat, rest: seq<nat>)
    requires body <= topEnd <= |lines| && Covers(lines, found, rest, topEnd)
    requires forall i | 0 <= i < |found| :: topEnd <= found[i]
    ensures Covers(lines, found, Numbers(body, topEnd) + rest, body)
  {
    hide IsIdLine;
    var own := Numbers(body, topEnd);
    CoversFrom(lines, found, rest, topEnd);
    forall k: nat
      ensures k in own <==> body <= k < topEnd
      ensures k < topEnd ==> !DroppedId(lines, found, k)
    {
      if body <= k < topEnd { assert own[k - body] == k; }
    }
    assert forall k: nat :: k in own + rest <==> k in own || k in rest;
  }
}
