/** Where each line of a MANIFEST goes: into the head, a prose section, or the configuration. */
module ManifestProse {
  import opened Options
  import opened Text
  import opened ReflectionText

  /** The parser's folding of a heading. */
  type KeyOf = string -> string

  datatype Fence = Fence(mark: char, count: nat)
  datatype Heading = Heading(level: nat, text: string)

  // ----- lines

  function Count(line: string, c: char): (r: nat)
    ensures r <= |line| && (r < |line| ==> line[r] != c)
  {
    if line != "" && line[0] == c then 1 + Count(line[1..], c) else 0
  }

  function DropTabs(s: string): string {
    if s != "" && IsTab(s[|s| - 1]) then DropTabs(s[..|s| - 1]) else s
  }

  /** The level and text of an ATX heading line. */
  function HeadingOf(line: string): Option<Heading> {
    var i := Indent(line);
    var hashes := if i <= |line| then Count(line[i..], '#') else 0;
    if hashes == 0 then None
    else
      var rest := line[i + hashes..];
      if hashes > 6 then (if IsTabs(rest) then Some(Heading(6, "")) else None)
      else if rest != "" && (!IsTab(rest[0]) || exists c | c in rest :: EndsLine(c)) then None
      else Some(Heading(hashes, Trim(DropTabs(DropHashes(DropTabs(rest))))))
  }

  function FenceMarker(line: string): Option<Fence> {
    var i := Indent(line);
    if i >= |line| || (line[i] != '`' && line[i] != '~') then None
    else
      var n := Count(line[i..], line[i]);
      if n >= 3 then Some(Fence(line[i], n)) else None
  }

  /** Whether the line closes the fence: its character, at least as long, nothing after it. */
  predicate Closes(open: Fence, line: string) {
    var marker := FenceMarker(line);
    && marker.Some? && marker.value.mark == open.mark && marker.value.count >= open.count
    && (var rest := TrimStart(line); marker.value.count <= |rest| ==> Trim(rest[marker.value.count..]) == "")
  }

  lemma {:induction false} IndentIsBlank(line: string)
    ensures Indent(line) <= |line| && forall i | 0 <= i < Indent(line) :: line[i] == ' '
  {}

  lemma HeadingIsText(line: string)
    requires HeadingOf(line).Some?
    ensures !Blank(line)
  {
    IndentIsBlank(line);
    var i := Indent(line);
    assert line[i..][0] == '#';
    assert line[i] == '#';
  }

  // ----- fences

  /** The fence open before line `k`. */
  function FenceAt(lines: seq<string>, k: nat): Option<Fence>
    requires k <= |lines|
  {
    if k == 0 then None else FenceStep(FenceAt(lines, k - 1), lines[k - 1])
  }

  function FenceStep(open: Option<Fence>, line: string): Option<Fence> {
    if open.None? then FenceMarker(line)
    else if Closes(open.value, line) then None
    else open
  }

  predicate Fenced(lines: seq<string>, k: nat)
    requires k < |lines|
  {
    FenceAt(lines, k).Some? || FenceMarker(lines[k]).Some?
  }

  class FenceTracker {
    var open: Option<Fence>

    constructor ()
      ensures open == None
    {
      open := None;
    }

    method InFence(line: string) returns (inside: bool)
      modifies this
      ensures open == FenceStep(old(open), line)
      ensures inside <==> old(open).Some? || FenceMarker(line).Some?
    {
      if open.None? {
        var marker := FenceMarker(line);
        open := marker;
        return marker.Some?;
      }
      if Closes(open.value, line) { open := None; }
      return true;
    }
  }

  /** Line `j` opens a fence that no line before `k` closes. */
  ghost predicate OpenSince(lines: seq<string>, j: nat, k: nat)
    requires j <= k <= |lines| && j < |lines|
  {
    && FenceAt(lines, j).None? && FenceMarker(lines[j]).Some?
    && forall i | j < i < k :: !Closes(FenceMarker(lines[j]).value, lines[i])
  }

  lemma {:induction false} StillOpen(lines: seq<string>, j: nat, k: nat)
    requires j < k <= |lines| && OpenSince(lines, j, k)
    ensures FenceAt(lines, k) == FenceMarker(lines[j])
    decreases k
  {
    hide Closes, FenceMarker;
    if k > j + 1 { StillOpen(lines, j, k - 1); }
  }

  lemma {:induction false} OpenedAt(lines: seq<string>, k: nat) returns (j: nat)
    requires k <= |lines| && FenceAt(lines, k).Some?
    ensures j < k && OpenSince(lines, j, k) && FenceMarker(lines[j]) == FenceAt(lines, k)
  {
    hide Closes, FenceMarker;
    if FenceAt(lines, k - 1).None? {
      j := k - 1;
    } else {
      j := OpenedAt(lines, k - 1);
    }
  }

  /** A line is fenced exactly when some line up to it opens a fence, outside any other, that nothing between them closes. */
  lemma FencedIs(lines: seq<string>, k: nat)
    requires k < |lines|
    ensures Fenced(lines, k) <==> exists j: nat | j <= k :: OpenSince(lines, j, k)
  {
    hide Closes, FenceMarker, FenceAt;
    if FenceAt(lines, k).Some? {
      var j := OpenedAt(lines, k);
    } else {
      assert FenceMarker(lines[k]).Some? ==> OpenSince(lines, k, k);
      if j: nat :| j <= k && OpenSince(lines, j, k) {
        if j < k { StillOpen(lines, j, k); }
      }
    }
  }

  // ----- where the sections start

  function HeadingAt(lines: seq<string>, k: nat): Option<Heading>
    requires k < |lines|
  {
    if Fenced(lines, k) then None else HeadingOf(lines[k])
  }

  /** A level-two heading outside every fence. */
  predicate Starts(lines: seq<string>, k: nat)
    requires k < |lines|
  {
    HeadingAt(lines, k).Some? && HeadingAt(lines, k).value.level == 2
  }

  /** The next section start from `k` on, or the end. */
  function NextStart(lines: seq<string>, k: nat): (r: nat)
    requires k <= |lines|
    ensures k <= r <= |lines| && (r < |lines| ==> Starts(lines, r))
    ensures forall i | k <= i < r :: !Starts(lines, i)
    decreases |lines| - k
  {
    if k == |lines| || Starts(lines, k) then k else NextStart(lines, k + 1)
  }

  lemma NextStartIs(lines: seq<string>, k: nat, r: nat)
    requires k <= r <= |lines| && (r < |lines| ==> Starts(lines, r))
    requires forall i | k <= i < r :: !Starts(lines, i)
    ensures NextStart(lines, k) == r
  {}

  // ----- the head

  function FirstText(lines: seq<string>, k: nat): (r: nat)
    requires k <= |lines|
    ensures k <= r <= |lines| && (r < |lines| ==> Trim(lines[r]) != "")
    ensures forall i | k <= i < r :: Trim(lines[i]) == ""
    decreases |lines| - k
  {
    if k == |lines| || Trim(lines[k]) != "" then k else FirstText(lines, k + 1)
  }

  /** The line that is the eyebrow: the first line with text, when it is a level-one heading. */
  predicate IsEyebrow(lines: seq<string>, k: nat)
    requires k < |lines|
  {
    k == FirstText(lines, 0) && HeadingAt(lines, k).Some? && HeadingAt(lines, k).value.level == 1
  }

  datatype Head = Head(eyebrow: Option<string>, lines: seq<string>)

  /** What the first `n` lines put on the head. */
  function HeadOf(lines: seq<string>, n: nat): Head
    requires n <= |lines|
  {
    var e := FirstText(lines, 0);
    if e < n && IsEyebrow(lines, e) then Head(Some(HeadingAt(lines, e).value.text), lines[..e] + lines[e + 1..n])
    else Head(None, lines[..n])
  }

  function Concat(parts: seq<string>): string {
    if parts == [] then "" else parts[0] + Concat(parts[1..])
  }

  lemma {:induction false} ConcatBlank(parts: seq<string>)
    ensures Trim(Concat(parts)) == "" <==> forall i | 0 <= i < |parts| :: Trim(parts[i]) == ""
  {
    hide Trim;
    TrimBlank(Concat(parts));
    if parts != [] {
      ConcatBlank(parts[1..]);
      TrimBlank(parts[0]);
      TrimBlank(Concat(parts[1..]));
      BlankAppend(parts[0], Concat(parts[1..]));
      assert forall i | 0 < i < |parts| :: parts[i] == parts[1..][i - 1];
    }
  }

  lemma BlankAppend(a: string, b: string)
    ensures Blank(a + b) <==> Blank(a) && Blank(b)
  {
    if Blank(a + b) {
      assert forall i | 0 <= i < |a| :: a[i] == (a + b)[i];
      assert forall i | 0 <= i < |b| :: b[i] == (a + b)[|a| + i];
    }
  }

  // ----- the sections

  datatype Raw = Raw(heading: string, key: string, lines: seq<string>)
  datatype Drawn = Drawn(heading: string, key: string, body: string, notes: string)

  function RawAt(lines: seq<string>, key: KeyOf, k: nat, end: nat): Raw
    requires k < end <= |lines| && Starts(lines, k)
  {
    var text := HeadingAt(lines, k).value.text;
    Raw(text, key(text), lines[k + 1..end])
  }

  /** The sections from the start at `k` on, each with the lines up to the next start. */
  function RawsFrom(lines: seq<string>, key: KeyOf, k: nat): seq<Raw>
    requires k <= |lines| && (k < |lines| ==> Starts(lines, k))
    decreases |lines| - k
  {
    if k == |lines| then []
    else
      var next := NextStart(lines, k + 1);
      [RawAt(lines, key, k, next)] + RawsFrom(lines, key, next)
  }

  /** The lines of the sections, each under its heading line. */
  function Laid(lines: seq<string>, raws: seq<Raw>, k: nat): seq<string>
    requires k <= |lines|
    decreases |raws|
  {
    if raws == [] || k == |lines| then []
    else [lines[k]] + raws[0].lines + Laid(lines, raws[1..], NextStart(lines, k + 1))
  }

  lemma {:induction false} LaidWhole(lines: seq<string>, key: KeyOf, k: nat)
    requires k <= |lines| && (k < |lines| ==> Starts(lines, k))
    ensures Laid(lines, RawsFrom(lines, key, k), k) == lines[k..]
    decreases |lines| - k
  {
    hide Starts;
    if k < |lines| {
      var next := NextStart(lines, k + 1);
      LaidWhole(lines, key, next);
      assert lines[k..] == [lines[k]] + lines[k + 1..next] + lines[next..];
    }
  }

  /** No line is lost or moved: the head, with the eyebrow's line put back, and the sections under their headings are the body. */
  lemma SplitIsLossless(lines: seq<string>, key: KeyOf)
    ensures var first := NextStart(lines, 0);
            lines == WithEyebrow(lines, HeadOf(lines, first)) + Laid(lines, RawsFrom(lines, key, first), first)
  {
    hide *;
    var first := NextStart(lines, 0);
    LaidWhole(lines, key, first);
    assert lines == lines[..first] + lines[first..];
    HeadWhole(lines, first);
  }

  lemma HeadWhole(lines: seq<string>, n: nat)
    requires n <= |lines|
    ensures lines[..n] == WithEyebrow(lines, HeadOf(lines, n))
  {
    hide IsEyebrow, FirstText;
    var e := FirstText(lines, 0);
    if e < n && IsEyebrow(lines, e) {
      var h := lines[..e] + lines[e + 1..n];
      assert h[..e] == lines[..e] && h[e..] == lines[e + 1..n];
      assert lines[..n] == lines[..e] + [lines[e]] + lines[e + 1..n];
    }
  }

  /** The head's lines with the eyebrow's line put back where it stood. */
  function WithEyebrow(lines: seq<string>, head: Head): seq<string> {
    var e := FirstText(lines, 0);
    if head.eyebrow.Some? && e < |lines| && e <= |head.lines| then head.lines[..e] + [lines[e]] + head.lines[e..] else head.lines
  }

  // ----- the notes of a section

  datatype NoteState = NoteState(fence: Option<Fence>, inBullet: bool)

  predicate Indented(line: string) {
    line != "" && IsTab(line[0])
  }

  predicate StartsBullet(line: string) {
    "- " <= line
  }

  /** A line that stays with the bullet above it. */
  predicate Continues(line: string) {
    Indented(line) || Trim(line) == ""
  }

  function NoteStep(s: NoteState, line: string): NoteState {
    if s.fence.Some? then (if Closes(s.fence.value, line) then NoteState(None, s.inBullet) else s)
    else if FenceMarker(line).Some? && !(s.inBullet && Indented(line)) then NoteState(FenceMarker(line), false)
    else if StartsBullet(line) then NoteState(None, true)
    else if Trim(line) == "" || (s.inBullet && Indented(line)) then s
    else NoteState(None, false)
  }

  /** The state before line `k`. */
  function NoteAt(lines: seq<string>, k: nat): NoteState
    requires k <= |lines|
  {
    if k == 0 then NoteState(None, false) else NoteStep(NoteAt(lines, k - 1), lines[k - 1])
  }

  /** A top-level bullet outside every fence. */
  predicate BulletAt(lines: seq<string>, k: nat)
    requires k < |lines|
  {
    NoteAt(lines, k).fence.None? && StartsBullet(lines[k])
  }

  /** Line `k` is the bullet at `j` or stays with it. */
  ghost predicate PartOf(lines: seq<string>, j: nat, k: nat)
    requires j <= k < |lines|
  {
    BulletAt(lines, j) && forall i | j < i <= k :: Continues(lines[i])
  }

  /** A line that goes with a bullet at the margin, or is one. */
  ghost predicate InBullet(lines: seq<string>, k: nat)
    requires k < |lines|
  {
    exists j: nat | j <= k :: PartOf(lines, j, k)
  }

  lemma BulletIsNoMarker(line: string)
    requires StartsBullet(line)
    ensures FenceMarker(line).None? && !Indented(line) && Trim(line) != ""
  {
    assert line[0] == '-';
    TrimBlank(line);
  }

  lemma MarkerIsText(line: string)
    requires FenceMarker(line).Some?
    ensures Trim(line) != ""
  {
    hide Trim;
    IndentIsBlank(line);
    TrimBlank(line);
  }

  lemma {:induction false} BulletStays(lines: seq<string>, j: nat, k: nat)
    requires j <= k < |lines| && PartOf(lines, j, k)
    ensures NoteAt(lines, k + 1) == NoteState(None, true)
    decreases k
  {
    hide FenceMarker, Trim, Closes;
    if k == j {
      BulletIsNoMarker(lines[k]);
    } else {
      BulletStays(lines, j, k - 1);
      if FenceMarker(lines[k]).Some? { MarkerIsText(lines[k]); }
      if StartsBullet(lines[k]) { BulletIsNoMarker(lines[k]); }
    }
  }

  lemma {:induction false} StaysInBullet(lines: seq<string>, k: nat) returns (j: nat)
    requires k < |lines| && NoteAt(lines, k + 1).inBullet
    ensures j <= k && PartOf(lines, j, k) && NoteAt(lines, k + 1).fence.None?
    decreases k
  {
    hide FenceMarker, Trim, Closes;
    var s := NoteAt(lines, k);
    if s.fence.None? && StartsBullet(lines[k]) {
      BulletIsNoMarker(lines[k]);
      j := k;
    } else {
      assert s.inBullet && k > 0;
      j := StaysInBullet(lines, k - 1);
    }
  }

  /** Whether the notes leave the line out, as the loop decides it. */
  predicate Skips(s: NoteState, line: string) {
    && s.fence.None? && !(FenceMarker(line).Some? && !(s.inBullet && Indented(line)))
    && (StartsBullet(line) || (s.inBullet && Continues(line)))
  }

  lemma SkipsIs(lines: seq<string>, k: nat)
    requires k < |lines|
    ensures Skips(NoteAt(lines, k), lines[k]) <==> InBullet(lines, k)
  {
    hide FenceMarker, Trim, Closes, PartOf, StartsBullet, Indented;
    if InBullet(lines, k) {
      var j: nat :| j <= k && PartOf(lines, j, k);
      PartSkipped(lines, j, k);
    }
    if Skips(NoteAt(lines, k), lines[k]) {
      SkippedPart(lines, k);
    }
  }

  lemma PartSkipped(lines: seq<string>, j: nat, k: nat)
    requires j <= k < |lines| && PartOf(lines, j, k)
    ensures Skips(NoteAt(lines, k), lines[k])
  {
    hide FenceMarker, Trim, Closes, NoteAt;
    if j == k {
      BulletIsNoMarker(lines[k]);
    } else {
      BulletStays(lines, j, k - 1);
      if FenceMarker(lines[k]).Some? { MarkerIsText(lines[k]); }
    }
  }

  lemma SkippedPart(lines: seq<string>, k: nat)
    requires k < |lines| && Skips(NoteAt(lines, k), lines[k])
    ensures InBullet(lines, k)
  {
    hide NoteAt, Skips, Continues, StartsBullet;
    SkipsParts(NoteAt(lines, k), lines[k]);
    if StartsBullet(lines[k]) {
      assert PartOf(lines, k, k);
    } else {
      NotesBegin(lines);
      var j := StaysInBullet(lines, k - 1);
      assert PartOf(lines, j, k);
    }
  }

  lemma SkipsParts(s: NoteState, line: string)
    requires Skips(s, line)
    ensures s.fence.None? && (StartsBullet(line) || (s.inBullet && Continues(line)))
  {}

  lemma NotesBegin(lines: seq<string>)
    ensures NoteAt(lines, 0) == NoteState(None, false)
  {}

  /** The lines from `k` on that are no part of a bullet. */
  ghost function NotesFrom(lines: seq<string>, k: nat): seq<string>
    requires k <= |lines|
    decreases |lines| - k
  {
    if k == |lines| then []
    else (if InBullet(lines, k) then [] else [lines[k]]) + NotesFrom(lines, k + 1)
  }

  /** `replace(/\n{3,}/g, "\n\n")`. */
  function Collapse(s: string): string {
    if |s| < 3 then s
    else if s[0] == '\n' && s[1] == '\n' && s[2] == '\n' then Collapse(s[1..])
    else [s[0]] + Collapse(s[1..])
  }

  ghost function Finished(raw: Raw): Drawn {
    Drawn(raw.heading, raw.key, Trim(Join(raw.lines, '\n')), Trim(Collapse(Join(NotesFrom(raw.lines, 0), '\n'))))
  }

  /** The notes are the section's lines that are no top-level bullet and no part of one. */
  method Notes(lines: seq<string>) returns (notes: seq<string>)
    ensures notes == NotesFrom(lines, 0)
  {
    hide FenceMarker, Closes, Trim, StartsBullet, Indented, InBullet;
    notes := [];
    var fence: Option<Fence> := None;
    var inBullet := false;
    for k := 0 to |lines|
      invariant NoteState(fence, inBullet) == NoteAt(lines, k)
      invariant notes + NotesFrom(lines, k) == NotesFrom(lines, 0)
    {
      var line := lines[k];
      SkipsIs(lines, k);
      NotesStep(notes, lines, k);
      if fence.Some? {
        notes := notes + [line];
        if Closes(fence.value, line) { fence := None; }
        continue;
      }
      var marker := FenceMarker(line);
      if marker.Some? && !(inBullet && Indented(line)) {
        fence := marker;
        inBullet := false;
        notes := notes + [line];
        continue;
      }
      if StartsBullet(line) {
        inBullet := true;
        continue;
      }
      if Trim(line) == "" {
        if !inBullet { notes := notes + [line]; }
        continue;
      }
      if inBullet && Indented(line) { continue; }
      inBullet := false;
      notes := notes + [line];
    }
  }

  lemma NotesStep(notes: seq<string>, lines: seq<string>, k: nat)
    requires k < |lines|
    ensures notes + NotesFrom(lines, k)
         == (if InBullet(lines, k) then notes else notes + [lines[k]]) + NotesFrom(lines, k + 1)
  {
    NotesUnfold(lines, k);
    hide *;
    var rest := NotesFrom(lines, k + 1);
    assert notes + ([] + rest) == notes + rest;
    assert notes + ([lines[k]] + rest) == notes + [lines[k]] + rest;
  }

  lemma NotesUnfold(lines: seq<string>, k: nat)
    requires k < |lines|
    ensures NotesFrom(lines, k) == (if InBullet(lines, k) then [] else [lines[k]]) + NotesFrom(lines, k + 1)
  {
    hide InBullet;
  }

  method Finish(raw: Raw) returns (section: Drawn)
    ensures section == Finished(raw)
  {
    var notes := Notes(raw.lines);
    section := Drawn(raw.heading, raw.key, Trim(Join(raw.lines, '\n')), Trim(Collapse(Join(notes, '\n'))));
  }

  ghost function FinishAll(raws: seq<Raw>): seq<Drawn> {
    seq(|raws|, i requires 0 <= i < |raws| => Finished(raws[i]))
  }

  lemma FinishNone()
    ensures FinishAll([]) == []
  {}

  lemma FinishAppend(raws: seq<Raw>, raw: Raw)
    ensures FinishAll(raws + [raw]) == FinishAll(raws) + [Finished(raw)]
  {}

  // ----- the split

  /** Cut the body lines into the head and the sections. */
  method Cut(lines: seq<string>, key: KeyOf) returns (head: Head, sections: seq<Drawn>)
    ensures head == HeadOf(lines, NextStart(lines, 0))
    ensures sections == FinishAll(RawsFrom(lines, key, NextStart(lines, 0)))
  {
    hide HeadingOf, FenceMarker, FenceStep, FinishAll, Finished, Trim, IsEyebrow, FirstText;
    var eyebrow: Option<string> := None;
    var top: seq<string> := [];
    sections := [];
    var current: Option<Raw> := None;
    var tracker := new FenceTracker();
    ghost var raws: seq<Raw> := [];
    ghost var b: nat := 0;
    HeadStart(lines);
    FinishNone();
    for k := 0 to |lines|
      invariant tracker.open == FenceAt(lines, k)
      invariant Cutting(lines, key, k, Head(eyebrow, top), current, raws, b)
      invariant sections == FinishAll(raws)
    {
      var fenced := tracker.InFence(lines[k]);
      var h := if fenced then None else HeadingOf(lines[k]);
      assert h == HeadingAt(lines, k);
      if h.Some? && h.value.level == 2 {
        CutStart(lines, key, k, Head(eyebrow, top), current, raws, b);
        if current.Some? {
          var done := Finish(current.value);
          FinishAppend(raws, current.value);
          sections := sections + [done];
          raws := raws + [current.value];
        }
        current := Some(Raw(h.value.text, key(h.value.text), []));
        b := k;
        continue;
      }
      CutLine(lines, key, k, Head(eyebrow, top), current, raws, b);
      if h.Some? && h.value.level == 1 {
        if eyebrow.None? && current.None? && Trim(Concat(top)) == "" {
          eyebrow := Some(h.value.text);
          continue;
        }
      }
      if current.Some? {
        current := Some(current.value.(lines := current.value.lines + [lines[k]]));
      } else {
        top := top + [lines[k]];
      }
    }
    CutEnd(lines, key, Head(eyebrow, top), current, raws, b);
    if current.Some? {
      var done := Finish(current.value);
      FinishAppend(raws, current.value);
      sections := sections + [done];
    }
    head := Head(eyebrow, top);
  }

  /** Where the cut stands before line `k`: `b` is the start of the section still open. */
  ghost predicate Cutting(lines: seq<string>, key: KeyOf, k: nat, head: Head, current: Option<Raw>, raws: seq<Raw>, b: nat)
    requires k <= |lines|
  {
    match current
    case None => head == HeadOf(lines, k) && raws == [] && forall i | 0 <= i < k :: !Starts(lines, i)
    case Some(raw) =>
      && b < k && Starts(lines, b) && raw == RawAt(lines, key, b, k) && (forall i | b < i < k :: !Starts(lines, i))
      && head == HeadOf(lines, NextStart(lines, 0))
      && raws + RawsFrom(lines, key, b) == RawsFrom(lines, key, NextStart(lines, 0))
  }

  lemma HeadStart(lines: seq<string>)
    ensures HeadOf(lines, 0) == Head(None, [])
  {}

  lemma CutStart(lines: seq<string>, key: KeyOf, k: nat, head: Head, current: Option<Raw>, raws: seq<Raw>, b: nat)
    requires k < |lines| && Starts(lines, k) && Cutting(lines, key, k, head, current, raws, b)
    ensures var done := if current.Some? then raws + [current.value] else raws;
            Cutting(lines, key, k + 1, head, Some(RawAt(lines, key, k, k + 1)), done, k)
  {
    hide Starts, HeadOf;
    if current.None? {
      NextStartIs(lines, 0, k);
      assert [] + RawsFrom(lines, key, k) == RawsFrom(lines, key, k);
    } else {
      NextStartIs(lines, b + 1, k);
      var rest := RawsFrom(lines, key, k);
      assert raws + ([current.value] + rest) == raws + [current.value] + rest;
    }
  }

  /** The head with line `k`: an eyebrow when nothing but blank lines came before it, else one more line. */
  function HeadWith(lines: seq<string>, k: nat, head: Head): Head
    requires k < |lines|
  {
    var h := HeadingAt(lines, k);
    if h.Some? && h.value.level == 1 && head.eyebrow.None? && Trim(Concat(head.lines)) == ""
      then Head(Some(h.value.text), head.lines)
    else Head(head.eyebrow, head.lines + [lines[k]])
  }

  lemma CutLine(lines: seq<string>, key: KeyOf, k: nat, head: Head, current: Option<Raw>, raws: seq<Raw>, b: nat)
    requires k < |lines| && !Starts(lines, k) && Cutting(lines, key, k, head, current, raws, b)
    ensures var next := match current
                        case Some(raw) => Some(raw.(lines := raw.lines + [lines[k]]))
                        case None => None;
            Cutting(lines, key, k + 1, if current.Some? then head else HeadWith(lines, k, head), next, raws, b)
  {
    hide Starts, HeadOf, HeadingAt, Trim;
    if current.None? {
      HeadGrows(lines, k);
    } else {
      assert lines[b + 1..k] + [lines[k]] == lines[b + 1..k + 1];
    }
  }

  /** One more head line: the eyebrow, when nothing but blank lines came before, or a line of the head. */
  lemma HeadGrows(lines: seq<string>, k: nat)
    requires k < |lines|
    ensures HeadOf(lines, k + 1) == HeadWith(lines, k, HeadOf(lines, k))
  {
    hide FirstText, Trim, Fenced, Concat;
    var e := FirstText(lines, 0);
    var head := HeadOf(lines, k);
    ConcatBlank(head.lines);
    assert forall i | 0 <= i < |head.lines| && head.eyebrow.None? :: head.lines[i] == lines[i];
    if HeadingAt(lines, k).Some? {
      HeadingIsText(lines[k]);
      TrimBlank(lines[k]);
    }
    if e < k {
      HeadBefore(lines, k, e);
    } else {
      assert lines[..k] + lines[k + 1..k + 1] == lines[..k];
      assert lines[..k + 1] == lines[..k] + [lines[k]];
    }
  }

  lemma HeadBefore(lines: seq<string>, k: nat, e: nat)
    requires e < k < |lines| && e == FirstText(lines, 0)
    ensures HeadOf(lines, k + 1) == HeadOf(lines, k).(lines := HeadOf(lines, k).lines + [lines[k]])
    ensures HeadOf(lines, k).eyebrow.None? ==> HeadOf(lines, k).lines == lines[..k]
  {
    hide FirstText, Fenced, Trim, IsEyebrow, HeadingAt;
    assert lines[..e] + lines[e + 1..k + 1] == lines[..e] + lines[e + 1..k] + [lines[k]];
    assert lines[..k + 1] == lines[..k] + [lines[k]];
  }

  lemma CutEnd(lines: seq<string>, key: KeyOf, head: Head, current: Option<Raw>, raws: seq<Raw>, b: nat)
    requires Cutting(lines, key, |lines|, head, current, raws, b)
    ensures head == HeadOf(lines, NextStart(lines, 0))
    ensures (if current.Some? then raws + [current.value] else raws) == RawsFrom(lines, key, NextStart(lines, 0))
  {
    hide Starts, HeadOf;
    if current.None? {
      NextStartIs(lines, 0, |lines|);
    } else {
      NextStartIs(lines, b + 1, |lines|);
      assert RawsFrom(lines, key, |lines|) == [];
      assert [current.value] + [] == [current.value];
    }
  }

  // ----- prose and configuration

  /** The first section with its key, when that is a configuration key. */
  predicate IsConfig(sections: seq<Drawn>, config: set<string>, i: nat)
    requires i < |sections|
  {
    sections[i].key in config && forall j | 0 <= j < i :: sections[j].key != sections[i].key
  }

  function ConfigFrom(sections: seq<Drawn>, config: set<string>, i: nat): seq<Drawn>
    requires i <= |sections|
    decreases |sections| - i
  {
    if i == |sections| then []
    else (if IsConfig(sections, config, i) then [sections[i]] else []) + ConfigFrom(sections, config, i + 1)
  }

  function ProseFrom(sections: seq<Drawn>, config: set<string>, i: nat): seq<Drawn>
    requires i <= |sections|
    decreases |sections| - i
  {
    if i == |sections| then []
    else (if sections[i].key in config then [] else [sections[i]]) + ProseFrom(sections, config, i + 1)
  }

  method KeepConfig(sections: seq<Drawn>, config: set<string>) returns (kept: seq<Drawn>)
    ensures kept == ConfigFrom(sections, config, 0)
  {
    hide ConfigFrom, IsConfig;
    kept := [];
    var seen: set<string> := {};
    for i := 0 to |sections|
      invariant SeenBefore(sections, config, i, seen)
      invariant kept + ConfigFrom(sections, config, i) == ConfigFrom(sections, config, 0)
    {
      var s := sections[i];
      ConfigNext(sections, config, i, seen, kept);
      if s.key !in config || s.key in seen { continue; }
      seen := seen + {s.key};
      kept := kept + [s];
    }
    ConfigEnd(sections, config);
  }

  /** The configuration keys of the sections before the `i`-th. */
  ghost predicate SeenBefore(sections: seq<Drawn>, config: set<string>, i: nat, seen: set<string>)
    requires i <= |sections|
  {
    forall k :: k in seen <==> k in config && exists j :: 0 <= j < i && sections[j].key == k
  }

  lemma ConfigNext(sections: seq<Drawn>, config: set<string>, i: nat, seen: set<string>, kept: seq<Drawn>)
    requires i < |sections| && SeenBefore(sections, config, i, seen)
    ensures var s := sections[i];
            && SeenBefore(sections, config, i + 1, if s.key in config then seen + {s.key} else seen)
            && (s.key !in config || s.key in seen <==> !IsConfig(sections, config, i))
            && (s.key in seen ==> seen + {s.key} == seen)
            && kept + ConfigFrom(sections, config, i)
               == (if IsConfig(sections, config, i) then kept + [s] else kept) + ConfigFrom(sections, config, i + 1)
  {
    ConfigStep(sections, config, i);
    hide ConfigFrom;
    var rest := ConfigFrom(sections, config, i + 1);
    assert kept + ([sections[i]] + rest) == kept + [sections[i]] + rest;
  }

  lemma ConfigEnd(sections: seq<Drawn>, config: set<string>)
    ensures ConfigFrom(sections, config, |sections|) == []
  {}

  /** A section is on the rail exactly when it is the first with its key and that is a configuration key. */
  lemma {:induction false} ConfigIsFirst(sections: seq<Drawn>, config: set<string>, i: nat, s: Drawn)
    requires i <= |sections|
    ensures s in ConfigFrom(sections, config, i)
       <==> exists j :: i <= j < |sections| && sections[j] == s && IsConfig(sections, config, j)
    decreases |sections| - i
  {
    hide IsConfig;
    if i == |sections| {
      ConfigEnd(sections, config);
    } else {
      hide ConfigFrom;
      ConfigIsFirst(sections, config, i + 1, s);
      ConfigStep(sections, config, i);
      var rest := ConfigFrom(sections, config, i + 1);
      assert s in [sections[i]] + rest <==> s == sections[i] || s in rest;
    }
  }

  /** No two sections on the rail have the same key. */
  lemma {:induction false} ConfigDistinct(sections: seq<Drawn>, config: set<string>, i: nat)
    requires i <= |sections|
    ensures DistinctKeys(ConfigFrom(sections, config, i))
    decreases |sections| - i
  {
    hide IsConfig, DistinctKeys;
    if i < |sections| {
      ConfigDistinct(sections, config, i + 1);
      ConfigStep(sections, config, i);
      hide ConfigFrom;
      var rest := ConfigFrom(sections, config, i + 1);
      forall b | 0 <= b < |rest|
        ensures rest[b].key != sections[i].key
      {
        LaterKey(sections, config, i, rest[b]);
      }
      DistinctOn(sections[i], rest);
    } else {
      NoKeys();
      ConfigEnd(sections, config);
    }
  }

  ghost predicate DistinctKeys(sections: seq<Drawn>) {
    forall a, b | 0 <= a < b < |sections| :: sections[a].key != sections[b].key
  }

  lemma NoKeys()
    ensures DistinctKeys([])
  {}

  lemma DistinctOn(s: Drawn, rest: seq<Drawn>)
    requires DistinctKeys(rest) && forall b | 0 <= b < |rest| :: rest[b].key != s.key
    ensures DistinctKeys([s] + rest)
  {}

  lemma ConfigApart(sections: seq<Drawn>, config: set<string>, i: nat, j: nat)
    requires i < j < |sections| && IsConfig(sections, config, j)
    ensures sections[i].key != sections[j].key
  {}

  lemma LaterKey(sections: seq<Drawn>, config: set<string>, i: nat, s: Drawn)
    requires i < |sections| && s in ConfigFrom(sections, config, i + 1)
    ensures s.key != sections[i].key
  {
    hide ConfigFrom, IsConfig;
    ConfigIsFirst(sections, config, i + 1, s);
    var j :| i + 1 <= j < |sections| && sections[j] == s && IsConfig(sections, config, j);
    ConfigApart(sections, config, i, j);
  }

  lemma ConfigStep(sections: seq<Drawn>, config: set<string>, i: nat)
    requires i < |sections|
    ensures ConfigFrom(sections, config, i)
         == if IsConfig(sections, config, i) then [sections[i]] + ConfigFrom(sections, config, i + 1)
            else ConfigFrom(sections, config, i + 1)
  {
    hide IsConfig;
  }

  /** Every configuration key some section has is on the rail. */
  lemma {:induction false} ConfigHasKey(sections: seq<Drawn>, config: set<string>, i: nat)
    requires i < |sections| && sections[i].key in config
    ensures exists s :: s in ConfigFrom(sections, config, 0) && s.key == sections[i].key
    decreases i
  {
    hide ConfigFrom;
    if j: nat :| j < i && sections[j].key == sections[i].key {
      ConfigHasKey(sections, config, j);
    } else {
      ConfigIsFirst(sections, config, 0, sections[i]);
      assert IsConfig(sections, config, i);
      assert sections[i] in ConfigFrom(sections, config, 0);
    }
  }

  // ----- the whole page

  /** The lines left once the frontmatter is gone. */
  function BodyOf(lines: seq<string>): seq<string> {
    if lines == [] || Trim(lines[0]) != "---" then lines
    else
      var end := FrontmatterEnd(lines, 1);
      if end == |lines| then lines else lines[end + 1..]
  }

  function FrontmatterEnd(lines: seq<string>, k: nat): (r: nat)
    requires k <= |lines|
    ensures k <= r <= |lines|
    decreases |lines| - k
  {
    if k == |lines| || Trim(lines[k]) == "---" then k else FrontmatterEnd(lines, k + 1)
  }

  datatype Lead = Lead(lead: Option<string>, rest: string)

  function LastText(lines: seq<string>, k: nat): (r: nat)
    requires k <= |lines|
    ensures k <= r <= |lines| && (r < |lines| ==> Trim(lines[r]) == "")
    ensures forall i | k <= i < r :: Trim(lines[i]) != ""
    decreases |lines| - k
  {
    if k == |lines| || Trim(lines[k]) == "" then k else LastText(lines, k + 1)
  }

  /** The first paragraph and what follows it; `block` tells a line that starts a block other than a paragraph. */
  function LeadOf(lines: seq<string>, block: string -> bool): Lead {
    var start := FirstText(lines, 0);
    if start == |lines| then Lead(None, "")
    else if block(lines[start]) then Lead(None, Trim(Join(lines, '\n')))
    else
      var end := LastText(lines, start);
      Lead(Some(Trim(Join(lines[start..end], '\n'))), Trim(Join(lines[end..], '\n')))
  }

  method FirstParagraph(lines: seq<string>, block: string -> bool) returns (r: Lead)
    ensures r == LeadOf(lines, block)
  {
    hide Trim, Join;
    var start := FirstText(lines, 0);
    if start == |lines| { return Lead(None, ""); }
    if block(lines[start]) { return Lead(None, Trim(Join(lines, '\n'))); }
    var end := start;
    while end < |lines| && Trim(lines[end]) != ""
      invariant start <= end <= |lines| && LastText(lines, start) == LastText(lines, end)
    {
      end := end + 1;
    }
    return Lead(Some(Trim(Join(lines[start..end], '\n'))), Trim(Join(lines[end..], '\n')));
  }

  datatype Prose = Prose(eyebrow: Option<string>, lead: Option<string>, intro: string, sections: seq<Drawn>, config: seq<Drawn>)

  method SplitManifest(markdown: string, config: set<string>, key: KeyOf, block: string -> bool) returns (page: Prose)
    ensures var lines := BodyOf(Split(Lf(markdown), '\n'));
            var sections := FinishAll(RawsFrom(lines, key, NextStart(lines, 0)));
            var head := HeadOf(lines, NextStart(lines, 0));
            && page.eyebrow == head.eyebrow
            && Lead(page.lead, page.intro) == LeadOf(head.lines, block)
            && page.config == ConfigFrom(sections, config, 0)
            && page.sections == ProseFrom(sections, config, 0)
  {
    hide *;
    var lines := BodyOf(Split(Lf(markdown), '\n'));
    var head, sections := Cut(lines, key);
    var onRail := KeepConfig(sections, config);
    var lead := FirstParagraph(head.lines, block);
    return Prose(head.eyebrow, lead.lead, lead.rest, ProseFrom(sections, config, 0), onRail);
  }

  // ----- where the prose and the rail come from

  type Pick = (seq<Drawn>, set<string>, nat) -> bool

  predicate IsProse(sections: seq<Drawn>, config: set<string>, j: nat) {
    j < |sections| && sections[j].key !in config
  }

  predicate IsRail(sections: seq<Drawn>, config: set<string>, j: nat) {
    j < |sections| && IsConfig(sections, config, j)
  }

  /** The places of the sections that are so, in order: every one of them, and no other. */
  ghost predicate Places(sections: seq<Drawn>, config: set<string>, kept: seq<Drawn>, places: seq<nat>, from: nat, so: Pick) {
    && |places| == |kept| && (forall a, b | 0 <= a < b < |places| :: places[a] < places[b])
    && (forall a | 0 <= a < |places| :: from <= places[a] < |sections| && kept[a] == sections[places[a]])
    && forall j: nat :: j in places <==> from <= j < |sections| && so(sections, config, j)
  }

  lemma PlacesOn(sections: seq<Drawn>, config: set<string>, rest: seq<Drawn>, places: seq<nat>, i: nat, so: Pick)
    requires i < |sections| && Places(sections, config, rest, places, i + 1, so)
    ensures so(sections, config, i) ==> Places(sections, config, [sections[i]] + rest, [i] + places, i, so)
    ensures !so(sections, config, i) ==> Places(sections, config, rest, places, i, so)
  {
    assert forall j: nat :: j in [i] + places <==> j == i || j in places;
  }

  lemma NoPlaces(sections: seq<Drawn>, config: set<string>, so: Pick)
    ensures Places(sections, config, [], [], |sections|, so)
  {}

  /** The prose holds the sections whose key is not one of the configuration's, each once and in the order of the document. */
  lemma {:induction false} ProsePlaces(sections: seq<Drawn>, config: set<string>, i: nat) returns (places: seq<nat>)
    requires i <= |sections|
    ensures Places(sections, config, ProseFrom(sections, config, i), places, i, IsProse)
    decreases |sections| - i
  {
    hide Places;
    if i == |sections| {
      places := [];
      NoPlaces(sections, config, IsProse);
    } else {
      places := ProsePlaces(sections, config, i + 1);
      PlacesOn(sections, config, ProseFrom(sections, config, i + 1), places, i, IsProse);
      assert [] + ProseFrom(sections, config, i + 1) == ProseFrom(sections, config, i + 1);
      if IsProse(sections, config, i) { places := [i] + places; }
    }
  }

  /** The rail holds the first section of each configuration key, in the order of the document. */
  lemma {:induction false} RailPlaces(sections: seq<Drawn>, config: set<string>, i: nat) returns (places: seq<nat>)
    requires i <= |sections|
    ensures Places(sections, config, ConfigFrom(sections, config, i), places, i, IsRail)
    decreases |sections| - i
  {
    hide Places, IsConfig;
    if i == |sections| {
      places := [];
      NoPlaces(sections, config, IsRail);
    } else {
      places := RailPlaces(sections, config, i + 1);
      PlacesOn(sections, config, ConfigFrom(sections, config, i + 1), places, i, IsRail);
      ConfigStep(sections, config, i);
      if IsRail(sections, config, i) { places := [i] + places; }
    }
  }
}
