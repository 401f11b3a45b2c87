/** Marking the searched-for words in a snippet: intervals found, merged and cut. */
module Snippet {
  import opened Options
  import opened Text
  import opened QuoteWalk

  /** `toLowerCase`, which may change a text's length. */
  type Fold = string -> string

  datatype Range = Range(start: nat, end: nat)

  // ----- the terms

  /** The whitespace-separated words, in order. */
  function Words(query: string): seq<string> {
    if query == "" then []
    else if IsSpace(query[0]) then Words(query[1..])
    else if |query| == 1 || IsSpace(query[1]) then [[query[0]]] + Words(query[1..])
    else
      var rest := Words(query[1..]);
      if rest == [] then [query] else [[query[0]] + rest[0]] + rest[1..]
  }

  /** The folded words, each kept once, in order of first appearance. */
  method SearchTerms(query: string, fold: Fold) returns (terms: seq<string>)
    ensures forall i, j | 0 <= i < j < |terms| :: terms[i] != terms[j]
    ensures forall t :: t in terms <==> t != "" && exists w :: w in Words(query) && t == fold(w)
  {
    terms := [];
    var words := Words(query);
    for i := 0 to |words|
      invariant forall i, j | 0 <= i < j < |terms| :: terms[i] != terms[j]
      invariant forall t :: t in terms <==> t != "" && exists w :: w in words[..i] && t == fold(w)
    {
      assert words[..i + 1] == words[..i] + [words[i]];
      var lowered := fold(words[i]);
      if lowered != "" && lowered !in terms { terms := terms + [lowered]; }
    }
    assert words[..|words|] == words;
  }

  // ----- what is covered

  /** A term the matcher uses: folding must keep its length. */
  predicate Usable(fold: Fold, term: string) {
    fold(term) != "" && |fold(term)| == |term|
  }

  /** A walked match of the term covers the character at `i`. */
  ghost predicate TermCovers(haystack: string, term: string, fold: Fold, i: nat) {
    Usable(fold, term) && exists m :: m in Walk(haystack, fold(term), 0) && m <= i < m + |fold(term)|
  }

  /** The character at `i` is covered by a walked match of some term; a text that folding resizes is never marked. */
  ghost predicate Covered(text: string, terms: seq<string>, fold: Fold, i: nat) {
    |fold(text)| == |text| && exists t :: t in terms && TermCovers(fold(text), t, fold, i)
  }

  predicate Inside(r: Range, i: nat) {
    r.start <= i < r.end
  }

  ghost predicate Union(ranges: seq<Range>, i: nat) {
    exists k :: 0 <= k < |ranges| && Inside(ranges[k], i)
  }

  ghost predicate Bounded(ranges: seq<Range>, n: nat) {
    forall k | 0 <= k < |ranges| :: ranges[k].start < ranges[k].end <= n
  }

  lemma UnionAppend(a: seq<Range>, b: seq<Range>)
    ensures forall i: nat :: Union(a + b, i) <==> Union(a, i) || Union(b, i)
  {
    forall i: nat | Union(a, i) || Union(b, i)
      ensures Union(a + b, i)
    {
      if Union(a, i) {
        var k :| 0 <= k < |a| && Inside(a[k], i);
        assert Inside((a + b)[k], i);
      } else {
        var k :| 0 <= k < |b| && Inside(b[k], i);
        assert Inside((a + b)[|a| + k], i);
      }
    }
  }

  // ----- collecting

  /** The ranges of one needle's walked matches. */
  method TermRanges(haystack: string, needle: string) returns (ranges: seq<Range>)
    requires needle != ""
    ensures Bounded(ranges, |haystack|)
    ensures forall i: nat :: Union(ranges, i) <==> exists m :: m in Walk(haystack, needle, 0) && m <= i < m + |needle|
  {
    hide At, Find, Walk, Bounded, RangesAt, Union, Met;
    ranges := [];
    ghost var done: seq<nat> := [];
    var at := Find(haystack, needle, 0);
    ghost var from: nat := 0;
    NoRanges(|needle|, |haystack|);
    NoneMet(haystack, needle);
    while at != -1
      invariant Met(haystack, needle, from, done) && from <= |haystack| && at == Find(haystack, needle, from)
      invariant RangesAt(ranges, done, |needle|, |haystack|)
      decreases |haystack| - from
    {
      NextMet(haystack, needle, from, done);
      MoreRanges(ranges, done, |needle|, |haystack|, at);
      ranges := ranges + [Range(at, at + |needle|)];
      done := done + [at];
      from := at + |needle|;
      at := Find(haystack, needle, at + |needle|);
    }
    NextMet(haystack, needle, from, done);
    RangesOf(ranges, done, |needle|, |haystack|);
  }

  /** The matches walked so far, with the walk going on at `from`. */
  ghost predicate Met(text: string, needle: string, from: nat, done: seq<nat>)
    requires needle != ""
  {
    from <= |text| && done + Walk(text, needle, from) == Walk(text, needle, 0)
  }

  lemma NoneMet(text: string, needle: string)
    requires needle != ""
    ensures Met(text, needle, 0, [])
  {
    hide Walk;
    assert [] + Walk(text, needle, 0) == Walk(text, needle, 0);
  }

  lemma NextMet(text: string, needle: string, from: nat, done: seq<nat>)
    requires needle != "" && from <= |text| && Met(text, needle, from, done)
    ensures var at := Find(text, needle, from);
            if at == -1 then done == Walk(text, needle, 0)
            else from <= at <= at + |needle| <= |text| && Met(text, needle, at + |needle|, done + [at])
  {
    hide Walk, Find;
    WalkNext(text, needle, from, done);
  }

  /** One range for each match, inside the text. */
  ghost predicate RangesAt(ranges: seq<Range>, matches: seq<nat>, length: nat, n: nat) {
    && |ranges| == |matches|
    && forall k | 0 <= k < |ranges| :: ranges[k] == Range(matches[k], matches[k] + length) && matches[k] + length <= n
  }

  lemma NoRanges(length: nat, n: nat)
    ensures RangesAt([], [], length, n)
  {}

  lemma MoreRanges(ranges: seq<Range>, matches: seq<nat>, length: nat, n: nat, at: nat)
    requires RangesAt(ranges, matches, length, n) && at + length <= n
    ensures RangesAt(ranges + [Range(at, at + length)], matches + [at], length, n)
  {}

  lemma WalkNext(text: string, needle: string, from: nat, done: seq<nat>)
    requires needle != "" && from <= |text|
    ensures var at := Find(text, needle, from);
            && (at == -1 || from <= at <= at + |needle| <= |text|)
            && done + Walk(text, needle, from) == if at < 0 then done else done + [at] + Walk(text, needle, at + |needle|)
  {
    hide At;
    var at := Find(text, needle, from);
    if at >= 0 {
      MatchInside(text, needle, at);
      var rest := Walk(text, needle, at + |needle|);
      assert done + ([at] + rest) == done + [at] + rest;
    } else {
      assert done + [] == done;
    }
  }

  lemma RangesOf(ranges: seq<Range>, matches: seq<nat>, length: nat, n: nat)
    requires RangesAt(ranges, matches, length, n) && length > 0
    ensures Bounded(ranges, n)
    ensures forall i: nat :: Union(ranges, i) <==> exists m :: m in matches && m <= i < m + length
  {
    forall i: nat
      ensures Union(ranges, i) <==> exists m :: m in matches && m <= i < m + length
    {
      if m: nat :| m in matches && m <= i < m + length {
        var k :| 0 <= k < |matches| && matches[k] == m;
        assert Inside(ranges[k], i);
      }
      if k :| 0 <= k < |ranges| && Inside(ranges[k], i) {
        assert matches[k] in matches;
      }
    }
  }

  /** Every walked match of every usable term, as a range. */
  method Collect(haystack: string, terms: seq<string>, fold: Fold) returns (found: seq<Range>)
    ensures Bounded(found, |haystack|)
    ensures forall i: nat :: Union(found, i) <==> exists t :: t in terms && TermCovers(haystack, t, fold, i)
  {
    hide Walk;
    found := [];
    for j := 0 to |terms|
      invariant Bounded(found, |haystack|)
      invariant forall i: nat :: Union(found, i) <==> exists t :: t in terms[..j] && TermCovers(haystack, t, fold, i)
    {
      CoverStep(haystack, terms, j, fold);
      var needle := fold(terms[j]);
      if needle != "" && |needle| == |terms[j]| {
        var ranges := TermRanges(haystack, needle);
        assert forall i: nat :: Union(ranges, i) <==> TermCovers(haystack, terms[j], fold, i);
        UnionAppend(found, ranges);
        found := found + ranges;
      } else {
        assert forall i: nat :: !TermCovers(haystack, terms[j], fold, i);
      }
    }
    assert terms[..|terms|] == terms;
  }

  lemma CoverStep(haystack: string, terms: seq<string>, j: nat, fold: Fold)
    requires j < |terms|
    ensures forall i: nat :: (exists t :: t in terms[..j + 1] && TermCovers(haystack, t, fold, i))
              <==> (exists t :: t in terms[..j] && TermCovers(haystack, t, fold, i)) || TermCovers(haystack, terms[j], fold, i)
  {
    hide TermCovers;
    assert terms[..j + 1] == terms[..j] + [terms[j]];
    assert forall t :: t in terms[..j + 1] <==> t in terms[..j] || t == terms[j];
  }

  // ----- sorting

  /** The comparator: by start, the longer range first. */
  predicate Before(a: Range, b: Range) {
    a.start < b.start || (a.start == b.start && a.end >= b.end)
  }

  ghost predicate Sorted(ranges: seq<Range>) {
    forall i, j | 0 <= i < j < |ranges| :: Before(ranges[i], ranges[j])
  }

  function Insert(r: Range, sorted: seq<Range>): seq<Range> {
    if sorted == [] || Before(r, sorted[0]) then [r] + sorted else [sorted[0]] + Insert(r, sorted[1..])
  }

  /** `sort` with that comparator. */
  function Sort(ranges: seq<Range>): seq<Range> {
    if ranges == [] then [] else Insert(ranges[0], Sort(ranges[1..]))
  }

  lemma {:induction false} InsertSorted(r: Range, sorted: seq<Range>)
    requires Sorted(sorted)
    ensures Sorted(Insert(r, sorted))
    ensures forall x :: x in Insert(r, sorted) <==> x == r || x in sorted
  {
    if sorted != [] && !Before(r, sorted[0]) {
      InsertSorted(r, sorted[1..]);
      var rest := Insert(r, sorted[1..]);
      assert forall k | 0 <= k < |rest| :: rest[k] in rest;
    }
  }

  lemma {:induction false} SortSorts(ranges: seq<Range>)
    ensures Sorted(Sort(ranges))
    ensures forall x :: x in Sort(ranges) <==> x in ranges
  {
    if ranges != [] {
      SortSorts(ranges[1..]);
      InsertSorted(ranges[0], Sort(ranges[1..]));
    }
  }

  lemma SameUnion(a: seq<Range>, b: seq<Range>, n: nat)
    requires forall x :: x in a <==> x in b
    ensures forall i: nat :: Union(a, i) <==> Union(b, i)
    ensures Bounded(a, n) ==> Bounded(b, n)
  {
    forall i: nat
      ensures Union(a, i) <==> Union(b, i)
    {
      if k :| 0 <= k < |a| && Inside(a[k], i) {
        assert a[k] in b;
      }
      if k :| 0 <= k < |b| && Inside(b[k], i) {
        assert b[k] in a;
      }
    }
    forall k | 0 <= k < |b| && Bounded(a, n)
      ensures b[k].start < b[k].end <= n
    {
      assert b[k] in a;
    }
  }

  // ----- merging

  /** Ranges in order with a gap between each two. */
  ghost predicate Gapped(ranges: seq<Range>) {
    forall i, j | 0 <= i < j < |ranges| :: ranges[i].end < ranges[j].start
  }

  method Merge(found: seq<Range>, n: nat) returns (merged: seq<Range>)
    requires Sorted(found) && Bounded(found, n)
    ensures Gapped(merged) && Bounded(merged, n)
    ensures forall i: nat :: Union(merged, i) <==> Union(found, i)
  {
    merged := [];
    for k := 0 to |found|
      invariant Gapped(merged) && Bounded(merged, n)
      invariant if k == 0 then merged == [] else merged != [] && merged[|merged| - 1].start <= found[k - 1].start
      invariant forall i: nat :: Union(merged, i) <==> Union(found[..k], i)
    {
      assert found[..k + 1] == found[..k] + [found[k]];
      UnionAppend(found[..k], [found[k]]);
      UnionOne(found[k]);
      var r := found[k];
      if merged != [] && r.start <= merged[|merged| - 1].end {
        var last := merged[|merged| - 1];
        var wider := Range(last.start, if last.end >= r.end then last.end else r.end);
        assert k > 0 ==> Before(found[k - 1], found[k]);
        WidenLast(merged, r, wider);
        merged := merged[|merged| - 1 := wider];
      } else {
        UnionAppend(merged, [r]);
        merged := merged + [r];
      }
    }
    assert found[..|found|] == found;
  }

  lemma UnionOne(r: Range)
    ensures forall i: nat :: Union([r], i) <==> Inside(r, i)
  {
    assert [r][0] == r;
  }

  lemma WidenLast(merged: seq<Range>, r: Range, wider: Range)
    requires merged != []
    requires var last := merged[|merged| - 1];
             last.start <= r.start <= last.end && last.start < last.end && r.start < r.end
             && wider == Range(last.start, if last.end >= r.end then last.end else r.end)
    ensures forall i: nat :: Union(merged[|merged| - 1 := wider], i) <==> Union(merged, i) || Inside(r, i)
  {
    var n := |merged| - 1;
    assert merged == merged[..n] + [merged[n]];
    assert merged[n := wider] == merged[..n] + [wider];
    UnionAppend(merged[..n], [merged[n]]);
    UnionAppend(merged[..n], [wider]);
    UnionOne(merged[n]);
    UnionOne(wider);
  }

  /** The maximal runs of covered characters, in order, with a gap between each two. */
  ghost predicate AreMarks(text: string, terms: seq<string>, fold: Fold, ranges: seq<Range>) {
    && Gapped(ranges) && Bounded(ranges, |text|)
    && forall i: nat :: Union(ranges, i) <==> Covered(text, terms, fold, i)
  }

  /** The stretches of the text that some term covers. */
  method MatchRanges(text: string, terms: seq<string>, fold: Fold) returns (merged: seq<Range>)
    ensures AreMarks(text, terms, fold, merged)
  {
    var haystack := fold(text);
    if |haystack| != |text| { return []; }
    var found := Collect(haystack, terms, fold);
    SortSorts(found);
    SameUnion(found, Sort(found), |text|);
    merged := Merge(Sort(found), |text|);
  }

  // ----- one answer for one set of covered characters

  /** Ranges in order with gaps are the maximal covered runs, so the covered characters fix them. */
  lemma {:induction false} RunsAreUnique(a: seq<Range>, b: seq<Range>, n: nat)
    requires Gapped(a) && Gapped(b) && Bounded(a, n) && Bounded(b, n)
    requires forall i: nat :: Union(a, i) <==> Union(b, i)
    ensures a == b
  {
    if a == [] {
      if b != [] { FirstInside(b); }
    } else {
      FirstInside(a);
      if b != [] {
        FirstInside(b);
        FirstRun(a, b, n);
        RestOfUnion(a);
        RestOfUnion(b);
        RunsAreUnique(a[1..], b[1..], n);
      }
    }
  }

  lemma FirstInside(a: seq<Range>)
    requires a != [] && a[0].start < a[0].end
    ensures Union(a, a[0].start)
  {
    assert Inside(a[0], a[0].start);
  }

  /** Nothing is covered before the first run, nor right after it. */
  lemma RunEdges(a: seq<Range>, n: nat)
    requires a != [] && Gapped(a) && Bounded(a, n)
    ensures forall i: nat | i < a[0].start :: !Union(a, i)
    ensures forall i: nat | a[0].start <= i < a[0].end :: Union(a, i)
    ensures !Union(a, a[0].end)
  {
    forall i: nat | a[0].start <= i < a[0].end
      ensures Union(a, i)
    {
      assert Inside(a[0], i);
    }
  }

  lemma FirstRun(a: seq<Range>, b: seq<Range>, n: nat)
    requires a != [] && b != [] && Gapped(a) && Gapped(b) && Bounded(a, n) && Bounded(b, n)
    requires forall i: nat :: Union(a, i) <==> Union(b, i)
    ensures a[0] == b[0]
  {
    hide Union, Gapped;
    RunEdges(a, n);
    RunEdges(b, n);
    assert Union(a, a[0].start) && Union(b, b[0].start);
    assert !Union(a, a[0].end) && !Union(b, b[0].end);
  }

  lemma RestOfUnion(a: seq<Range>)
    requires a != [] && Gapped(a)
    ensures forall i: nat :: Union(a[1..], i) <==> Union(a, i) && i > a[0].end
    ensures Gapped(a[1..])
  {
    assert a == [a[0]] + a[1..];
    UnionAppend([a[0]], a[1..]);
    UnionOne(a[0]);
  }

  lemma SameCover(text: string, a: seq<string>, b: seq<string>, fold: Fold)
    requires forall t :: t in a <==> t in b
    ensures forall i: nat :: Covered(text, a, fold, i) <==> Covered(text, b, fold, i)
  {}

  /** The marks do not depend on the order of the terms, nor on repeats among them. */
  lemma MarksIgnoreOrder(text: string, a: seq<string>, b: seq<string>, fold: Fold, ma: seq<Range>, mb: seq<Range>)
    requires AreMarks(text, a, fold, ma) && AreMarks(text, b, fold, mb)
    requires forall t :: t in a <==> t in b
    ensures ma == mb
  {
    SameCover(text, a, b, fold);
    RunsAreUnique(ma, mb, |text|);
  }

  // ----- cutting

  datatype Part = Part(text: string, match': bool)

  function Texts(parts: seq<Part>): string {
    if parts == [] then "" else parts[0].text + Texts(parts[1..])
  }

  /** For every character of the parts' texts, whether its part is a match. */
  function Marks(parts: seq<Part>): (r: seq<bool>)
    ensures |r| == |Texts(parts)|
  {
    if parts == [] then [] else seq(|parts[0].text|, _ => parts[0].match') + Marks(parts[1..])
  }

  lemma {:induction false} PartsAppend(a: seq<Part>, p: Part)
    ensures Texts(a + [p]) == Texts(a) + p.text
    ensures Marks(a + [p]) == Marks(a) + seq(|p.text|, _ => p.match')
  {
    if a == [] {
      assert (a + [p])[1..] == [];
    } else {
      assert (a + [p])[1..] == a[1..] + [p];
      PartsAppend(a[1..], p);
    }
  }

  /** Marked and unmarked parts take turns, and none is empty. */
  ghost predicate TakeTurns(parts: seq<Part>) {
    && (forall k | 0 <= k < |parts| :: parts[k].text != "")
    && (forall k | 0 < k < |parts| :: parts[k].match' != parts[k - 1].match')
  }

  /** Where the cutting stands at `at`: everything before it is in a part, marked exactly where a range is. */
  ghost predicate CutTo(text: string, ranges: seq<Range>, parts: seq<Part>, at: nat) {
    && at <= |text| && Texts(parts) == text[..at]
    && forall i: nat | i < at :: Marks(parts)[i] <==> Union(ranges, i)
  }

  lemma AddPart(text: string, ranges: seq<Range>, parts: seq<Part>, at: nat, end: nat, mark: bool)
    requires CutTo(text, ranges, parts, at) && at <= end <= |text|
    requires forall i: nat | at <= i < end :: Union(ranges, i) <==> mark
    ensures CutTo(text, ranges, parts + [Part(text[at..end], mark)], end)
  {
    hide Union;
    PartsAppend(parts, Part(text[at..end], mark));
    assert text[..end] == text[..at] + text[at..end];
  }

  /** The pieces of a text cut at gapped ranges. */
  method CutAt(text: string, ranges: seq<Range>) returns (parts: seq<Part>)
    requires Gapped(ranges) && Bounded(ranges, |text|) && ranges != []
    ensures CutTo(text, ranges, parts, |text|) && TakeTurns(parts)
  {
    hide Texts, Marks, Union;
    parts := [];
    var at: nat := 0;
    CutNothing(text, ranges);
    for k := 0 to |ranges|
      invariant CutTo(text, ranges, parts, at) && TakeTurns(parts)
      invariant if k == 0 then parts == [] && at == 0 else parts != [] && parts[|parts| - 1].match' && at == ranges[k - 1].end
    {
      var r := ranges[k];
      Between(ranges, k, |text|);
      if r.start > at {
        AddPart(text, ranges, parts, at, r.start, false);
        parts := parts + [Part(text[at..r.start], false)];
      }
      AddPart(text, ranges, parts, r.start, r.end, true);
      parts := parts + [Part(text[r.start..r.end], true)];
      at := r.end;
    }
    if at < |text| {
      After(ranges, |text|);
      AddPart(text, ranges, parts, at, |text|, false);
      parts := parts + [Part(text[at..], false)];
      assert text[at..] == text[at..|text|];
    }
  }

  lemma CutNothing(text: string, ranges: seq<Range>)
    ensures CutTo(text, ranges, [], 0)
  {}

  lemma Between(ranges: seq<Range>, k: nat, n: nat)
    requires Gapped(ranges) && Bounded(ranges, n) && k < |ranges|
    ensures forall i: nat | (if k == 0 then 0 else ranges[k - 1].end) <= i < ranges[k].start :: !Union(ranges, i)
    ensures forall i: nat | ranges[k].start <= i < ranges[k].end :: Union(ranges, i)
  {
    forall i: nat | ranges[k].start <= i < ranges[k].end
      ensures Union(ranges, i)
    {
      assert Inside(ranges[k], i);
    }
  }

  lemma After(ranges: seq<Range>, n: nat)
    requires ranges != [] && Gapped(ranges) && Bounded(ranges, n)
    ensures forall i: nat | i >= ranges[|ranges| - 1].end :: !Union(ranges, i)
  {}

  /**
   * The pieces of a snippet put together are the snippet, marked and
   * unmarked ones take turns, and a character is marked exactly when a
   * walked match of a term covers it.
   */
  method SnippetParts(text: string, terms: seq<string>, fold: Fold) returns (parts: seq<Part>)
    ensures Texts(parts) == text
    ensures forall i | 0 <= i < |text| :: Marks(parts)[i] <==> Covered(text, terms, fold, i)
    ensures if text == "" then parts == [Part("", false)] else TakeTurns(parts)
  {
    hide Covered, Texts, Marks;
    var ranges := MatchRanges(text, terms, fold);
    if ranges == [] {
      CutNothing(text, ranges);
      AddPart(text, ranges, [], 0, |text|, false);
      assert text[0..|text|] == text && [] + [Part(text, false)] == [Part(text, false)];
      return [Part(text, false)];
    }
    parts := CutAt(text, ranges);
    assert text[..|text|] == text && ranges[0].end <= |text|;
  }

  // ----- matches the walk steps over

  /** Some proper start of the needle is also its end, so two matches of it can overlap. */
  ghost predicate HasBorder(needle: string) {
    exists b: nat :: 0 < b < |needle| && needle[..b] == needle[|needle| - b..]
  }

  ghost predicate WalkHas(text: string, needle: string, i: nat)
    requires needle != ""
  {
    exists m :: m in Walk(text, needle, 0) && m <= i < m + |needle|
  }

  /** Every character of every true match is covered by a walked one. */
  ghost predicate CoversAllMatches(text: string, needle: string)
    requires needle != ""
  {
    forall s: nat | At(text, needle, s) :: forall i: nat | s <= i < s + |needle| :: WalkHas(text, needle, i)
  }

  /** Two true matches that overlap share a border of the needle. */
  lemma OverlapIsBorder(text: string, needle: string, m: nat, s: nat)
    requires At(text, needle, m) && At(text, needle, s) && m < s < m + |needle|
    ensures HasBorder(needle)
  {
    var b := m + |needle| - s;
    var shared := text[s..s + b];
    assert needle[..b] == shared by { assert text[s..s + |needle|][..b] == shared; }
    assert needle[|needle| - b..] == shared by { assert text[m..m + |needle|][s - m..] == shared; }
  }

  lemma Twice(needle: string, b: nat)
    requires 0 < b < |needle| && needle[..b] == needle[|needle| - b..]
    ensures At(needle + needle[b..], needle, 0) && At(needle + needle[b..], needle, |needle| - b)
  {
    var text, n := needle + needle[b..], |needle|;
    assert text[0..n] == needle;
    assert text[n - b..n - b + n] == needle[n - b..] + needle[b..];
    assert needle[..b] + needle[b..] == needle;
  }

  /** The walk leaves the second of two needles that share their border half unmarked. */
  lemma BorderedWalk(needle: string, b: nat)
    requires 0 < b < |needle| && needle[..b] == needle[|needle| - b..]
    ensures !CoversAllMatches(needle + needle[b..], needle)
  {
    hide At;
    var text, n := needle + needle[b..], |needle|;
    Twice(needle, b);
    FindIs(text, needle, 0, 0);
    var next := Find(text, needle, n);
    if next >= 0 {
      MatchInside(text, needle, next);
      assert false;
    }
    assert Walk(text, needle, n) == [];
    assert Walk(text, needle, 0) == [0];
    assert !WalkHas(text, needle, n);
  }

  /** The marks cover every match of a term in every text exactly when no two matches of it can overlap. */
  lemma MarksMissOnlyOverlaps(needle: string)
    requires needle != ""
    ensures (forall text :: CoversAllMatches(text, needle)) <==> !HasBorder(needle)
  {
    hide CoversAllMatches;
    if HasBorder(needle) {
      var b: nat :| 0 < b < |needle| && needle[..b] == needle[|needle| - b..];
      BorderedWalk(needle, b);
    } else {
      forall text
        ensures CoversAllMatches(text, needle)
      {
        WalkCoversAll(text, needle);
      }
    }
  }

  lemma WalkCoversAll(text: string, needle: string)
    requires needle != "" && !HasBorder(needle)
    ensures CoversAllMatches(text, needle)
  {
    hide At, HasBorder, Walk;
    forall s: nat | At(text, needle, s)
      ensures forall i: nat | s <= i < s + |needle| :: WalkHas(text, needle, i)
    {
      WalksOn(text, needle, s);
    }
  }

  lemma WalksOn(text: string, needle: string, s: nat)
    requires needle != "" && At(text, needle, s) && !HasBorder(needle)
    ensures s in Walk(text, needle, 0)
  {
    hide HasBorder, At;
    MatchInside(text, needle, s);
    var k := WalkCovers(text, needle, 0, s);
    WalkSpaced(text, needle, 0);
    var m := Walk(text, needle, 0)[k];
    if m < s { OverlapIsBorder(text, needle, m, s); }
  }

  // ----- the words of a query

  lemma WordAlone(word: string)
    requires word != "" && forall i | 0 <= i < |word| :: !IsSpace(word[i])
    ensures Words(word) == [word]
    decreases |word|
  {
    if |word| > 1 {
      WordAlone(word[1..]);
      assert [word[0]] + word[1..] == word;
    } else {
      assert word[1..] == "" && word == [word[0]];
    }
  }

  /** A blank parts the words of what stands before and behind it, and makes none. With the words of nothing and of one word, this says what they are. */
  lemma {:induction false} WordsPart(before: string, blank: char, after: string)
    requires IsSpace(blank)
    ensures Words(before + [blank] + after) == Words(before) + Words(after)
    ensures Words("") == []
    decreases |before|
  {
    var query := before + [blank] + after;
    if before == "" {
      assert query[0] == blank && query[1..] == after;
    } else {
      assert query[0] == before[0] && query[1..] == before[1..] + [blank] + after;
      WordsPart(before[1..], blank, after);
      if !IsSpace(before[0]) && |before| > 1 && !IsSpace(before[1]) {
        assert query[1] == before[1];
        SomeWord(before[1..]);
        var rest := Words(before[1..]);
        assert (rest + Words(after))[1..] == rest[1..] + Words(after);
      } else if !IsSpace(before[0]) && |before| == 1 {
        assert query[1] == blank;
      }
    }
  }

  lemma SomeWord(s: string)
    requires s != "" && !IsSpace(s[0])
    ensures Words(s) != []
  {}
}
