/** What a reader sees of a quote: half pairs of markup are dropped. */
module DisplayQuote {
  import opened Text
  import opened Markup

  /** Takes the HTML comments out of a text. */
  type Strip = string -> string

  predicate Covers(m: Mark, i: int) {
    m.start <= i < m.end
  }

  ghost predicate Covered(cuts: seq<Mark>, i: int) {
    exists k :: 0 <= k < |cuts| && Covers(cuts[k], i)
  }

  // ----- what is cut

  predicate Inside(m: Mark, start: nat, end: nat) {
    start <= m.start && m.end <= end
  }

  predicate HeldWhole(p: Pair, start: nat, end: nat) {
    Inside(p.open, start, end) && Inside(p.close, start, end)
  }

  /** The part of a delimiter that lies in the quote. */
  function Clip(m: Mark, start: nat, end: nat): seq<Mark> {
    var from, to := if m.start < start then start else m.start, if m.end < end then m.end else end;
    if from < to then [Mark(from, to)] else []
  }

  function CutsOf(p: Pair, start: nat, end: nat): seq<Mark> {
    if HeldWhole(p, start, end) then [] else Clip(p.open, start, end) + Clip(p.close, start, end)
  }

  function Cuts(pairs: seq<Pair>, start: nat, end: nat): seq<Mark> {
    if pairs == [] then [] else CutsOf(pairs[0], start, end) + Cuts(pairs[1..], start, end)
  }

  /** A pair the quote does not hold whole has a delimiter at `i`. */
  predicate SplitAt(p: Pair, start: nat, end: nat, i: int) {
    !HeldWhole(p, start, end) && start <= i < end && (Covers(p.open, i) || Covers(p.close, i))
  }

  lemma CoveredAppend(a: seq<Mark>, b: seq<Mark>, i: int)
    ensures Covered(a + b, i) <==> Covered(a, i) || Covered(b, i)
  {
    if k :| 0 <= k < |a| && Covers(a[k], i) { assert Covers((a + b)[k], i); }
    if k :| 0 <= k < |b| && Covers(b[k], i) { assert Covers((a + b)[|a| + k], i); }
  }

  lemma ClipCovers(m: Mark, start: nat, end: nat, i: int)
    ensures Covered(Clip(m, start, end), i) <==> start <= i < end && Covers(m, i)
  {
    if start <= i < end && Covers(m, i) { assert Covers(Clip(m, start, end)[0], i); }
  }

  /** A character is cut exactly when it belongs to a delimiter of a pair the quote does not hold whole. */
  lemma {:induction false} CutsCover(pairs: seq<Pair>, start: nat, end: nat, i: int)
    ensures Covered(Cuts(pairs, start, end), i) <==> exists p :: p in pairs && SplitAt(p, start, end, i)
  {
    hide Clip, Covered, Covers;
    if pairs == [] {
      NoneCovered(i);
    } else {
      var p := pairs[0];
      CutsCover(pairs[1..], start, end, i);
      CoveredAppend(CutsOf(p, start, end), Cuts(pairs[1..], start, end), i);
      CoveredAppend(Clip(p.open, start, end), Clip(p.close, start, end), i);
      ClipCovers(p.open, start, end, i);
      ClipCovers(p.close, start, end, i);
      NoneCovered(i);
      assert CutsOf(p, start, end) == [] || CutsOf(p, start, end) == Clip(p.open, start, end) + Clip(p.close, start, end);
      SplitOneOf(pairs, start, end, i);
    }
  }

  lemma SplitOneOf(pairs: seq<Pair>, start: nat, end: nat, i: int)
    requires pairs != []
    ensures (exists p :: p in pairs && SplitAt(p, start, end, i))
       <==> SplitAt(pairs[0], start, end, i) || exists p :: p in pairs[1..] && SplitAt(p, start, end, i)
  {
    hide SplitAt;
    assert forall q :: q in pairs <==> q == pairs[0] || q in pairs[1..];
  }

  lemma NoneCovered(i: int)
    ensures !Covered([], i)
  {}

  lemma CutsStep(done: seq<Mark>, pairs: seq<Pair>, start: nat, end: nat, k: nat)
    requires k < |pairs|
    ensures done + Cuts(pairs[k..], start, end) == (done + CutsOf(pairs[k], start, end)) + Cuts(pairs[k + 1..], start, end)
  {
    hide CutsOf;
    assert pairs[k..][0] == pairs[k] && pairs[k..][1..] == pairs[k + 1..];
  }

  method FindCuts(pairs: seq<Pair>, start: nat, end: nat) returns (cuts: seq<Mark>)
    ensures cuts == Cuts(pairs, start, end)
  {
    hide HeldWhole, Clip, Cuts;
    cuts := [];
    assert pairs[0..] == pairs;
    for k := 0 to |pairs|
      invariant cuts + Cuts(pairs[k..], start, end) == Cuts(pairs, start, end)
    {
      CutsStep(cuts, pairs, start, end, k);
      var p := pairs[k];
      if HeldWhole(p, start, end) {
        assert cuts + [] == cuts;
        continue;
      }
      cuts := cuts + (Clip(p.open, start, end) + Clip(p.close, start, end));
    }
    assert pairs[|pairs|..] == [];
    NoCuts(start, end);
  }

  lemma NoCuts(start: nat, end: nat)
    ensures Cuts([], start, end) == []
  {}

  // ----- by start

  ghost predicate Ascending(cuts: seq<Mark>) {
    forall i, j | 0 <= i < j < |cuts| :: cuts[i].start <= cuts[j].start
  }

  function Insert(m: Mark, sorted: seq<Mark>): seq<Mark> {
    if sorted == [] || m.start <= sorted[0].start then [m] + sorted else [sorted[0]] + Insert(m, sorted[1..])
  }

  /** `sort` by start. */
  function Sort(cuts: seq<Mark>): seq<Mark> {
    if cuts == [] then [] else Insert(cuts[0], Sort(cuts[1..]))
  }

  lemma {:induction false} InsertAscending(m: Mark, sorted: seq<Mark>)
    requires Ascending(sorted)
    ensures Ascending(Insert(m, sorted)) && forall x :: x in Insert(m, sorted) <==> x == m || x in sorted
  {
    if sorted != [] && m.start > sorted[0].start {
      InsertAscending(m, sorted[1..]);
      var rest := Insert(m, sorted[1..]);
      assert forall k | 0 <= k < |rest| :: rest[k] in rest;
    }
  }

  lemma {:induction false} SortAscends(cuts: seq<Mark>)
    ensures Ascending(Sort(cuts)) && forall x :: x in Sort(cuts) <==> x in cuts
  {
    if cuts != [] {
      SortAscends(cuts[1..]);
      InsertAscending(cuts[0], Sort(cuts[1..]));
    }
  }

  lemma SameCovered(a: seq<Mark>, b: seq<Mark>, i: int)
    requires forall x :: x in a <==> x in b
    ensures Covered(a, i) <==> Covered(b, i)
  {
    if k :| 0 <= k < |a| && Covers(a[k], i) { assert a[k] in b; }
    if k :| 0 <= k < |b| && Covers(b[k], i) { assert b[k] in a; }
  }

  // ----- what is left

  /** The characters of `[from, to)` that no cut covers, in order. */
  ghost function Kept(text: string, cuts: seq<Mark>, from: nat, to: nat): string
    requires from <= to <= |text|
    decreases |text| - from
  {
    if from == to then ""
    else (if Covered(cuts, from) then "" else [text[from]]) + Kept(text, cuts, from + 1, to)
  }

  lemma {:induction false} KeptSplit(text: string, cuts: seq<Mark>, from: nat, mid: nat, to: nat)
    requires from <= mid <= to <= |text|
    ensures Kept(text, cuts, from, to) == Kept(text, cuts, from, mid) + Kept(text, cuts, mid, to)
    decreases |text| - from
  {
    if from < mid { KeptSplit(text, cuts, from + 1, mid, to); }
  }

  lemma {:induction false} KeptSame(text: string, a: seq<Mark>, b: seq<Mark>, from: nat, to: nat)
    requires from <= to <= |text| && forall i :: Covered(a, i) <==> Covered(b, i)
    ensures Kept(text, a, from, to) == Kept(text, b, from, to)
    decreases |text| - from
  {
    hide Covered;
    if from < to { KeptSame(text, a, b, from + 1, to); }
  }

  lemma {:induction false} KeptNothing(text: string, cuts: seq<Mark>, from: nat, to: nat)
    requires from <= to <= |text| && forall i | from <= i < to :: Covered(cuts, i)
    ensures Kept(text, cuts, from, to) == ""
    decreases |text| - from
  {
    hide Covered;
    if from < to { KeptNothing(text, cuts, from + 1, to); }
  }

  /** Everything is kept exactly when nothing is covered. */
  lemma {:induction false} KeptAll(text: string, cuts: seq<Mark>, from: nat, to: nat)
    requires from <= to <= |text|
    ensures |Kept(text, cuts, from, to)| <= to - from
    ensures Kept(text, cuts, from, to) == text[from..to] <==> (forall i | from <= i < to :: !Covered(cuts, i))
    decreases |text| - from
  {
    hide Covered;
    if from < to {
      KeptAll(text, cuts, from + 1, to);
      assert text[from..to] == [text[from]] + text[from + 1..to];
      assert text[from..to][1..] == text[from + 1..to];
      if Covered(cuts, from) {
        assert Kept(text, cuts, from, to) == Kept(text, cuts, from + 1, to);
      } else {
        assert Kept(text, cuts, from, to)[1..] == Kept(text, cuts, from + 1, to);
      }
    }
  }

  /** Every cut before the `k`-th lies before `at`, and none after it starts before it. */
  ghost predicate CutTo(sorted: seq<Mark>, k: nat, at: nat) {
    k <= |sorted| && forall j | 0 <= j < k :: sorted[j].end <= at
  }

  lemma KeptGap(text: string, sorted: seq<Mark>, k: nat, start: nat, at: nat, to: nat)
    requires Ascending(sorted) && CutTo(sorted, k, at) && start <= at <= to <= |text|
    requires k < |sorted| ==> to <= sorted[k].start
    ensures Kept(text, sorted, start, to) == Kept(text, sorted, start, at) + text[at..to]
  {
    KeptSplit(text, sorted, start, at, to);
    forall i | at <= i < to
      ensures !Covered(sorted, i)
    {
      forall j | 0 <= j < |sorted|
        ensures !Covers(sorted[j], i)
      {
        if j >= k { assert sorted[k].start <= sorted[j].start; }
      }
    }
    KeptAll(text, sorted, at, to);
  }

  lemma KeptCut(text: string, sorted: seq<Mark>, k: nat, start: nat, at: nat, to: nat)
    requires k < |sorted| && sorted[k].start <= at <= to <= sorted[k].end && start <= at && to <= |text|
    ensures Kept(text, sorted, start, to) == Kept(text, sorted, start, at)
  {
    KeptSplit(text, sorted, start, at, to);
    forall i | at <= i < to
      ensures Covered(sorted, i)
    {
      assert Covers(sorted[k], i);
    }
    KeptNothing(text, sorted, at, to);
  }

  /** The cutting loop: cuts may overlap, and what is left is exactly the characters outside all of them. */
  method CutOut(text: string, cuts: seq<Mark>, start: nat, end: nat) returns (out: string)
    requires start <= end <= |text|
    requires forall k | 0 <= k < |cuts| :: start <= cuts[k].start < cuts[k].end <= end
    ensures out == Kept(text, cuts, start, end)
  {
    hide Kept, Covered, Ascending;
    var sorted := Sort(cuts);
    SortAscends(cuts);
    assert forall k | 0 <= k < |sorted| :: sorted[k] in cuts;
    out := "";
    var at := start;
    KeptNothing(text, sorted, start, start);
    for k := 0 to |sorted|
      invariant start <= at <= end && CutTo(sorted, k, at)
      invariant out == Kept(text, sorted, start, at)
    {
      var cut := sorted[k];
      ghost var reached := at;
      if cut.start > at {
        KeptGap(text, sorted, k, start, at, cut.start);
        out := out + text[at..cut.start];
        reached := cut.start;
      }
      if cut.end > at {
        KeptCut(text, sorted, k, start, reached, cut.end);
        at := cut.end;
      }
    }
    KeptGap(text, sorted, |sorted|, start, at, end);
    out := out + text[at..end];
    forall i
      ensures Covered(sorted, i) <==> Covered(cuts, i)
    {
      SameCovered(sorted, cuts, i);
    }
    KeptSame(text, sorted, cuts, start, end);
  }

  lemma {:induction false} CutsInside(pairs: seq<Pair>, start: nat, end: nat)
    ensures forall k | 0 <= k < |Cuts(pairs, start, end)| ::
              start <= Cuts(pairs, start, end)[k].start < Cuts(pairs, start, end)[k].end <= end
  {
    if pairs != [] {
      hide HeldWhole;
      CutsInside(pairs[1..], start, end);
    }
  }

  // ----- the quote as it is shown

  ghost function Display(text: string, start: nat, end: nat, word: char -> bool, strip: Strip): string
    requires start <= end <= |text|
  {
    var shown := strip(Kept(text, Cuts(Pairs(text, word), start, end), start, end));
    if Trim(shown) == "" then text[start..end] else shown
  }

  method DisplayQuote(text: string, start: nat, end: nat, word: char -> bool, strip: Strip) returns (quote: string)
    requires start <= end <= |text|
    ensures quote == Display(text, start, end, word, strip)
    ensures Trim(quote) == "" ==> quote == text[start..end]
  {
    hide Kept, Pairs, Cuts, Trim;
    var raw := text[start..end];
    var pairs := MarkupPairs(text, word);
    var cuts := FindCuts(pairs, start, end);
    CutsInside(pairs, start, end);
    var out := CutOut(text, cuts, start, end);
    var shown := strip(out);
    return if Trim(shown) == "" then raw else shown;
  }

  /** Nothing is cut exactly when the quote splits no pair: no delimiter of a pair it does not hold whole reaches into it. */
  lemma WholeQuote(text: string, start: nat, end: nat, word: char -> bool)
    requires start <= end <= |text|
    ensures Kept(text, Cuts(Pairs(text, word), start, end), start, end) == text[start..end]
       <==> forall p, i | p in Pairs(text, word) && start <= i < end :: !SplitAt(p, start, end, i)
  {
    hide Kept, Pairs, Cuts, Covered, SplitAt;
    var pairs := Pairs(text, word);
    var cuts := Cuts(pairs, start, end);
    KeptAll(text, cuts, start, end);
    if p, i :| p in pairs && start <= i < end && SplitAt(p, start, end, i) {
      CutsCover(pairs, start, end, i);
    }
    if i :| start <= i < end && Covered(cuts, i) {
      CutsCover(pairs, start, end, i);
    }
  }

  /** Markup the quote holds whole keeps its markers: only a link's part can take a code or emphasis marker with it. */
  lemma HeldMarkupStays(text: string, start: nat, end: nat, word: char -> bool, p: Pair, i: int)
    requires start <= end <= |text| && p in CodeSpans(text) + Emphasis(text, word)
    requires HeldWhole(p, start, end) && (Covers(p.open, i) || Covers(p.close, i))
    ensures Covered(Cuts(Pairs(text, word), start, end), i)
       <==> exists q :: q in LinksFrom(text, CodeSpans(text), 0, []) && SplitAt(q, start, end, i)
  {
    hide CodeSpans, Emphasis, LinksFrom, Cuts, Covered, HeldWhole;
    CutsCover(Pairs(text, word), start, end, i);
    forall q | q in CodeSpans(text) + Emphasis(text, word)
      ensures !SplitAt(q, start, end, i)
    {
      if SplitAt(q, start, end, i) { MarkersApart(text, word, p, q, i); }
    }
  }

  lemma MarkersApart(text: string, word: char -> bool, p: Pair, q: Pair, i: int)
    requires p in CodeSpans(text) + Emphasis(text, word) && q in CodeSpans(text) + Emphasis(text, word)
    requires (Covers(p.open, i) || Covers(p.close, i)) && (Covers(q.open, i) || Covers(q.close, i))
    ensures p == q
  {
    hide CodeSpans, Emphasis, LinksFrom, SameRuns, Laminar;
    MarkupIsLaminar(text, word);
    var code, emphasis := CodeSpans(text), Emphasis(text, word);
    var all := code + emphasis;
    assert forall k | 0 <= k < |all| :: Pairs(text, word)[k] == all[k];
    if a, b :| 0 <= a < |all| && 0 <= b < |all| && all[a] == p && all[b] == q && a != b {
      var x, y := if a < b then a else b, if a < b then b else a;
      LaminarMarksApart(all, |text|, x, y);
    }
  }
}
