/** The markup pairs of a section's text, and a quote shown without the halves it cut off. */
module Markup {
  import opened Options
  import opened Text

  /** A delimiter, as a range of the text. */
  datatype Mark = Mark(start: nat, end: nat)

  /** Two delimiters that belong together. */
  datatype Pair = Pair(open: Mark, close: Mark)

  // ----- runs of one character

  function RunEnd(text: string, c: char, i: nat): (r: nat)
    requires i <= |text|
    ensures i <= r <= |text|
    ensures forall k | i <= k < r :: text[k] == c
    ensures r < |text| ==> text[r] != c
    decreases |text| - i
  {
    if i < |text| && text[i] == c then RunEnd(text, c, i + 1) else i
  }

  /** The maximal runs of one character out of `marks`, in order, from `i` on. */
  function Runs(text: string, marks: set<char>, i: nat): (r: seq<Mark>)
    requires i <= |text|
    decreases |text| - i
  {
    if i == |text| then []
    else if text[i] in marks then
      var end := RunEnd(text, text[i], i + 1);
      [Mark(i, end)] + Runs(text, marks, end)
    else Runs(text, marks, i + 1)
  }

  /** A run of one mark. */
  predicate IsRun(text: string, marks: set<char>, m: Mark) {
    m.start < m.end <= |text| && text[m.start] in marks && forall k | m.start <= k < m.end :: text[k] == text[m.start]
  }

  /** Ranges one after another, from `from` on. */
  ghost predicate InOrder(marks: seq<Mark>, from: nat) {
    && (forall i | 0 <= i < |marks| :: from <= marks[i].start < marks[i].end)
    && forall i, j | 0 <= i < j < |marks| :: marks[i].end <= marks[j].start
  }

  lemma {:induction false} RunsInOrder(text: string, marks: set<char>, i: nat)
    requires i <= |text|
    ensures InOrder(Runs(text, marks, i), i)
    ensures forall k | 0 <= k < |Runs(text, marks, i)| :: IsRun(text, marks, Runs(text, marks, i)[k])
    decreases |text| - i
  {
    if i < |text| {
      if text[i] in marks {
        RunsInOrder(text, marks, RunEnd(text, text[i], i + 1));
      } else {
        RunsInOrder(text, marks, i + 1);
      }
    }
  }

  /** The character is escaped: the backslashes right before it do not pair off. */
  predicate Escaped(text: string, i: nat) {
    0 < i <= |text| && text[i - 1] == '\\' && !Escaped(text, i - 1)
  }

  predicate BlankAt(text: string, i: int) {
    i < 0 || i >= |text| || IsSpace(text[i])
  }

  // ----- code spans

  const TICK := {'`'}
  const EMPHASIS := {'*', '_', '~'}

  /** The first run after `i` of the same length, or the number of runs. */
  function ClosingTick(ticks: seq<Mark>, length: int, k: nat): (r: nat)
    requires k <= |ticks|
    ensures k <= r <= |ticks|
    ensures r < |ticks| ==> ticks[r].end - ticks[r].start == length
    ensures forall i | k <= i < r :: ticks[i].end - ticks[i].start != length
    decreases |ticks| - k
  {
    if k == |ticks| || ticks[k].end - ticks[k].start == length then k else ClosingTick(ticks, length, k + 1)
  }

  /** The pairs lie one after another, between `from` and `to`. */
  ghost predicate Apart(pairs: seq<Pair>, to: nat) {
    && (forall i | 0 <= i < |pairs| ::
          pairs[i].open.start < pairs[i].open.end <= pairs[i].close.start < pairs[i].close.end <= to)
    && forall i, j | 0 <= i < j < |pairs| :: pairs[i].close.end <= pairs[j].open.start
  }

  /** Both delimiters are runs of the same text. */
  predicate SameRuns(text: string, marks: set<char>, p: Pair) {
    && IsRun(text, marks, p.open) && IsRun(text, marks, p.close)
    && text[p.open.start..p.open.end] == text[p.close.start..p.close.end]
  }

  /** The run that closes a span opened by the `i`-th one, or the number of runs: an escaped run opens nothing. */
  function CodePartner(text: string, ticks: seq<Mark>, i: nat): (r: nat)
    requires i < |ticks|
    ensures r == |ticks| || (i < r < |ticks| && !Escaped(text, ticks[i].start)
                             && ticks[r].end - ticks[r].start == ticks[i].end - ticks[i].start)
  {
    if Escaped(text, ticks[i].start) then |ticks| else ClosingTick(ticks, ticks[i].end - ticks[i].start, i + 1)
  }

  /** Code spans from the `i`-th tick run on: an unescaped run and the next run of its length, then on after that. */
  function CodeFrom(text: string, ticks: seq<Mark>, i: nat): seq<Pair>
    requires i <= |ticks|
    decreases |ticks| - i
  {
    if i == |ticks| then []
    else
      var j := CodePartner(text, ticks, i);
      if j == |ticks| then CodeFrom(text, ticks, i + 1)
      else [Pair(ticks[i], ticks[j])] + CodeFrom(text, ticks, j + 1)
  }

  function CodeSpans(text: string): seq<Pair> {
    CodeFrom(text, Runs(text, TICK, 0), 0)
  }

  method FindCodeSpans(text: string) returns (pairs: seq<Pair>)
    ensures pairs == CodeSpans(text)
  {
    hide Escaped, Runs, ClosingTick, IsRun;
    var ticks := Runs(text, TICK, 0);
    pairs := [];
    var i := 0;
    while i < |ticks|
      invariant i <= |ticks| && pairs + CodeFrom(text, ticks, i) == CodeSpans(text)
    {
      var open := ticks[i];
      if Escaped(text, open.start) { i := i + 1; continue; }
      var j := ClosingTick(ticks, open.end - open.start, i + 1);
      if j == |ticks| { i := i + 1; continue; }
      pairs := pairs + [Pair(open, ticks[j])];
      i := j + 1;
    }
  }

  ghost predicate AreRuns(text: string, marks: set<char>, runs: seq<Mark>) {
    forall k | 0 <= k < |runs| :: IsRun(text, marks, runs[k])
  }

  ghost predicate StartFrom(runs: seq<Mark>, i: nat, at: nat) {
    forall k | i <= k < |runs| :: at <= runs[k].start
  }

  lemma StartLater(runs: seq<Mark>, i: nat, at: nat)
    requires i < |runs| && InOrder(runs, 0) && StartFrom(runs, i, at)
    ensures at <= runs[i].start < runs[i].end && StartFrom(runs, i + 1, runs[i].end) && StartFrom(runs, i + 1, at)
  {}

  lemma SpanBetween(text: string, ticks: seq<Mark>, i: nat, j: nat, at: nat)
    requires i < j < |ticks| && InOrder(ticks, 0) && StartFrom(ticks, i, at) && AreRuns(text, TICK, ticks)
    ensures at <= ticks[i].start < ticks[i].end <= ticks[j].start < ticks[j].end <= |text|
    ensures StartFrom(ticks, j + 1, ticks[j].end)
  {
    hide IsRun;
    RunInside(text, TICK, ticks[j]);
  }

  /** Code spans lie one after another, each between an unescaped tick run and a run of its length. */
  lemma {:induction false} CodeApart(text: string, ticks: seq<Mark>, i: nat, before: seq<Pair>, at: nat)
    requires i <= |ticks| && InOrder(ticks, 0) && Apart(before, at) && at <= |text|
    requires AreRuns(text, TICK, ticks) && StartFrom(ticks, i, at)
    ensures Apart(before + CodeFrom(text, ticks, i), |text|)
    decreases |ticks| - i
  {
    hide AreRuns, Escaped, Apart, CodePartner, InOrder, StartFrom;
    if i == |ticks| {
      ApartWithin(before, at, |text|);
      assert before + [] == before;
    } else {
      var j := CodePartner(text, ticks, i);
      if j == |ticks| {
        StartLater(ticks, i, at);
        CodeApart(text, ticks, i + 1, before, at);
      } else {
        var p := Pair(ticks[i], ticks[j]);
        SpanBetween(text, ticks, i, j, at);
        PairOn(before, at, p);
        CodeApart(text, ticks, j + 1, before + [p], ticks[j].end);
        var rest := CodeFrom(text, ticks, j + 1);
        assert before + [p] + rest == before + ([p] + rest);
      }
    }
  }

  ghost predicate CodePairs(text: string, pairs: seq<Pair>) {
    forall k | 0 <= k < |pairs| :: SameRuns(text, TICK, pairs[k]) && !Escaped(text, pairs[k].open.start)
  }

  lemma {:induction false} CodeSame(text: string, ticks: seq<Mark>, i: nat)
    requires i <= |ticks| && AreRuns(text, TICK, ticks)
    ensures CodePairs(text, CodeFrom(text, ticks, i))
    decreases |ticks| - i
  {
    hide IsRun, SameRuns, Escaped, CodePartner;
    if i < |ticks| {
      var j := CodePartner(text, ticks, i);
      if j == |ticks| {
        CodeSame(text, ticks, i + 1);
      } else {
        SameLengthRuns(text, ticks[i], ticks[j]);
        CodeSame(text, ticks, j + 1);
      }
    }
  }

  /** An unescaped run outside the code spans has no partner: no later run has its length. */
  lemma {:induction false} CodeMaximal(text: string, ticks: seq<Mark>, i: nat, k: nat, l: nat)
    requires i <= k < l < |ticks| && InOrder(ticks, 0)
    requires !Escaped(text, ticks[k].start) && !InCode(CodeFrom(text, ticks, i), ticks[k].start)
    ensures ticks[l].end - ticks[l].start != ticks[k].end - ticks[k].start
    decreases |ticks| - i
  {
    hide Escaped, InCode, CodePartner, InOrder;
    var j := CodePartner(text, ticks, i);
    if j == |ticks| {
      if k == i { NoPartner(text, ticks, k, l); } else { CodeMaximal(text, ticks, i + 1, k, l); }
    } else {
      var p := Pair(ticks[i], ticks[j]);
      SpanHolds(ticks, i, j, k);
      InCodeRest(p, CodeFrom(text, ticks, j + 1), ticks[k].start);
      CodeMaximal(text, ticks, j + 1, k, l);
    }
  }

  /** A tick run that opens no span and lies in none is followed by no run of its length. */
  lemma LoneTick(text: string, k: nat, l: nat)
    requires k < l < |Runs(text, TICK, 0)|
    requires var ticks := Runs(text, TICK, 0); !Escaped(text, ticks[k].start) && !InCode(CodeSpans(text), ticks[k].start)
    ensures var ticks := Runs(text, TICK, 0); ticks[l].end - ticks[l].start != ticks[k].end - ticks[k].start
  {
    hide Runs, CodeFrom, InCode, Escaped;
    RunsInOrder(text, TICK, 0);
    CodeMaximal(text, Runs(text, TICK, 0), 0, k, l);
  }

  lemma NoPartner(text: string, ticks: seq<Mark>, k: nat, l: nat)
    requires k < l < |ticks| && !Escaped(text, ticks[k].start) && CodePartner(text, ticks, k) == |ticks|
    ensures ticks[l].end - ticks[l].start != ticks[k].end - ticks[k].start
  {
    hide Escaped;
  }

  lemma SpanHolds(ticks: seq<Mark>, i: nat, j: nat, k: nat)
    requires InOrder(ticks, 0) && i < j < |ticks| && i <= k < |ticks|
    ensures !(ticks[i].start <= ticks[k].start < ticks[j].end) ==> k > j
  {}

  lemma InCodeRest(p: Pair, rest: seq<Pair>, at: nat)
    requires !InCode([p] + rest, at)
    ensures !InCode(rest, at) && !(p.open.start <= at < p.close.end)
  {
    var pairs := [p] + rest;
    assert pairs[0] == p;
    forall k | 0 <= k < |rest|
      ensures !(rest[k].open.start <= at < rest[k].close.end)
    {
      assert pairs[k + 1] == rest[k];
    }
  }

  lemma NoPairs()
    ensures Apart([], 0)
  {}

  lemma PairOn(pairs: seq<Pair>, at: nat, p: Pair)
    requires Apart(pairs, at) && at <= p.open.start < p.open.end <= p.close.start < p.close.end
    ensures Apart(pairs + [p], p.close.end)
  {}

  lemma ApartWithin(pairs: seq<Pair>, at: nat, to: nat)
    requires Apart(pairs, at) && at <= to
    ensures Apart(pairs, to)
  {}

  lemma RunInside(text: string, marks: set<char>, m: Mark)
    requires IsRun(text, marks, m)
    ensures m.start < m.end <= |text|
  {}

  lemma SameLengthRuns(text: string, a: Mark, b: Mark)
    requires IsRun(text, TICK, a) && IsRun(text, TICK, b) && a.end - a.start == b.end - b.start
    ensures SameRuns(text, TICK, Pair(a, b))
  {}

  // ----- emphasis

  /** The text of a delimiter. */
  function RunText(text: string, m: Mark): string
    requires m.start <= m.end <= |text|
  {
    text[m.start..m.end]
  }

  /** A code span covers the position. */
  predicate InCode(code: seq<Pair>, at: nat) {
    exists k :: 0 <= k < |code| && code[k].open.start <= at < code[k].close.end
  }

  method FindInCode(code: seq<Pair>, at: nat) returns (found: bool)
    ensures found <==> InCode(code, at)
  {
    for k := 0 to |code|
      invariant forall j | 0 <= j < k :: !(code[j].open.start <= at < code[j].close.end)
    {
      if code[k].open.start <= at < code[k].close.end { return true; }
    }
    return false;
  }

  /** The last opener on the stack with this text, or the stack's length. */
  function Partner(text: string, stack: seq<Mark>, run: string, k: nat): (r: nat)
    requires k <= |stack| && forall i | 0 <= i < |stack| :: stack[i].start <= stack[i].end <= |text|
    ensures r == |stack| || (r < k && RunText(text, stack[r]) == run)
  {
    if k == 0 then |stack|
    else if RunText(text, stack[k - 1]) == run then k - 1
    else Partner(text, stack, run, k - 1)
  }

  /** One span lies apart from the other, or between its delimiters. */
  predicate Laminar(p: Pair, q: Pair) {
    || p.close.end <= q.open.start || q.close.end <= p.open.start
    || (q.open.end <= p.open.start && p.close.end <= q.close.start)
    || (p.open.end <= q.open.start && q.close.end <= p.close.start)
  }

  ghost predicate AllLaminar(pairs: seq<Pair>) {
    forall i, j | 0 <= i < j < |pairs| :: Laminar(pairs[i], pairs[j])
  }

  predicate Proper(p: Pair, to: nat) {
    p.open.start < p.open.end <= p.close.start < p.close.end <= to
  }

  /** The run is apart from every code span. */
  ghost predicate OffCode(code: seq<Pair>, m: Mark) {
    forall k | 0 <= k < |code| :: m.end <= code[k].open.start || code[k].close.end <= m.start
  }

  /** Where the scan stands at `at`: the pairs are laminar, and no opener still on the stack lies in one. */
  ghost predicate Nested(code: seq<Pair>, pairs: seq<Pair>, stack: seq<Mark>, at: nat) {
    && InOrder(stack, 0)
    && (forall i | 0 <= i < |stack| :: stack[i].end <= at && OffCode(code, stack[i]))
    && AllLaminar(pairs)
    && (forall i | 0 <= i < |pairs| :: Proper(pairs[i], at) && OffCode(code, pairs[i].open) && OffCode(code, pairs[i].close))
    && (forall i, k | 0 <= i < |pairs| && 0 <= k < |stack| ::
          stack[k].end <= pairs[i].open.start || pairs[i].close.end <= stack[k].start)
  }

  lemma Closed(code: seq<Pair>, pairs: seq<Pair>, stack: seq<Mark>, at: nat, k: nat, m: Mark)
    requires Nested(code, pairs, stack, at) && k < |stack|
    requires at <= m.start < m.end && OffCode(code, m)
    ensures Nested(code, pairs + [Pair(stack[k], m)], stack[..k], m.end)
  {
    hide OffCode;
    var p := Pair(stack[k], m);
    assert forall i | 0 <= i < |pairs| :: Laminar(pairs[i], p);
    assert forall i | 0 <= i < k :: stack[i].end <= stack[k].start;
  }

  lemma Opened(code: seq<Pair>, pairs: seq<Pair>, stack: seq<Mark>, at: nat, m: Mark)
    requires Nested(code, pairs, stack, at) && at <= m.start < m.end && OffCode(code, m)
    ensures Nested(code, pairs, stack + [m], m.end)
  {
    hide OffCode;
  }

  /** A run that does not start in a code span does not reach into one: a span starts with a tick. */
  lemma RunOffCode(text: string, code: seq<Pair>, m: Mark)
    requires IsRun(text, EMPHASIS, m) && !InCode(code, m.start)
    requires forall k | 0 <= k < |code| :: SameRuns(text, TICK, code[k])
    ensures OffCode(code, m)
  {
    forall k | 0 <= k < |code|
      ensures m.end <= code[k].open.start || code[k].close.end <= m.start
    {
      var c := code[k].open.start;
      assert text[c] == '`';
      assert !(c <= m.start < code[k].close.end);
      assert forall i | m.start <= i < m.end :: text[i] != '`';
    }
  }

  /** What a run does: close an opener on the stack, open, or stay text. */
  datatype Turn = Closes(partner: nat) | Opens | Stays

  /** A run opens where a word follows and closes where one precedes; `_` between two letters is part of a word. */
  function TurnOf(text: string, code: seq<Pair>, word: char -> bool, m: Mark, stack: seq<Mark>): (t: Turn)
    requires IsRun(text, EMPHASIS, m) && OnText(text, stack)
    ensures t.Closes? ==> t.partner < |stack| && RunText(text, stack[t.partner]) == RunText(text, m)
    ensures !t.Stays? ==> !InCode(code, m.start)
  {
    var partner := Partner(text, stack, RunText(text, m), |stack|);
    if InCode(code, m.start) || Escaped(text, m.start) then Stays
    else if text[m.start] == '~' && m.end - m.start != 2 then Stays
    else if text[m.start] == '_' && WordAt(text, m.start - 1, word) && WordAt(text, m.end, word) then Stays
    else if !BlankAt(text, m.start - 1) && partner < |stack| then Closes(partner)
    else if !BlankAt(text, m.end) then Opens
    else Stays
  }

  predicate OnText(text: string, stack: seq<Mark>) {
    forall k | 0 <= k < |stack| :: IsRun(text, EMPHASIS, stack[k])
  }

  function EmphasisFrom(text: string, code: seq<Pair>, word: char -> bool, runs: seq<Mark>, i: nat, stack: seq<Mark>): seq<Pair>
    requires i <= |runs| && OnText(text, runs) && OnText(text, stack)
    decreases |runs| - i
  {
    if i == |runs| then []
    else
      match TurnOf(text, code, word, runs[i], stack)
      case Closes(partner) =>
        // What opened in between stays plain text.
        [Pair(stack[partner], runs[i])] + EmphasisFrom(text, code, word, runs, i + 1, stack[..partner])
      case Opens => EmphasisFrom(text, code, word, runs, i + 1, stack + [runs[i]])
      case Stays => EmphasisFrom(text, code, word, runs, i + 1, stack)
  }

  lemma EmphasisRuns(text: string)
    ensures OnText(text, Runs(text, EMPHASIS, 0)) && InOrder(Runs(text, EMPHASIS, 0), 0)
  {
    RunsInOrder(text, EMPHASIS, 0);
  }

  function Emphasis(text: string, word: char -> bool): seq<Pair> {
    EmphasisRuns(text);
    EmphasisFrom(text, CodeSpans(text), word, Runs(text, EMPHASIS, 0), 0, [])
  }

  method FindEmphasis(text: string, code: seq<Pair>, word: char -> bool) returns (pairs: seq<Pair>)
    requires code == CodeSpans(text)
    ensures pairs == Emphasis(text, word)
  {
    hide TurnOf, IsRun;
    var runs := Runs(text, EMPHASIS, 0);
    EmphasisRuns(text);
    var stack: seq<Mark> := [];
    pairs := [];
    for i := 0 to |runs|
      invariant OnText(text, stack)
      invariant pairs + EmphasisFrom(text, code, word, runs, i, stack) == Emphasis(text, word)
    {
      match TurnOf(text, code, word, runs[i], stack) {
        case Closes(partner) =>
          pairs := pairs + [Pair(stack[partner], runs[i])];
          stack := stack[..partner];
        case Opens =>
          stack := stack + [runs[i]];
        case Stays =>
      }
    }
  }

  /** The scan is over, with every delimiter inside the text. */
  ghost predicate Settled(code: seq<Pair>, pairs: seq<Pair>, n: nat) {
    && AllLaminar(pairs)
    && forall i | 0 <= i < |pairs| :: Proper(pairs[i], n) && OffCode(code, pairs[i].open) && OffCode(code, pairs[i].close)
  }

  lemma Settle(code: seq<Pair>, pairs: seq<Pair>, stack: seq<Mark>, at: nat, n: nat)
    requires Nested(code, pairs, stack, at) && at <= n
    ensures Settled(code, pairs, n)
  {
    hide OffCode, AllLaminar;
  }

  /** Emphasis pairs are nested in one another or apart, and no delimiter touches a code span. */
  lemma {:induction false} EmphasisLaminar(text: string, code: seq<Pair>, word: char -> bool, runs: seq<Mark>, i: nat, stack: seq<Mark>, pairs: seq<Pair>, at: nat)
    requires i <= |runs| && OnText(text, runs) && OnText(text, stack) && InOrder(runs, 0)
    requires (forall k | 0 <= k < |code| :: SameRuns(text, TICK, code[k])) && Nested(code, pairs, stack, at)
    requires at <= |text| && forall k | i <= k < |runs| :: at <= runs[k].start
    ensures var more := EmphasisFrom(text, code, word, runs, i, stack);
            && Settled(code, pairs + more, |text|)
            && forall k | 0 <= k < |more| :: SameRuns(text, EMPHASIS, more[k])
    decreases |runs| - i
  {
    hide IsRun, SameRuns, TurnOf, Nested, InCode, Settled;
    if i == |runs| {
      assert pairs + [] == pairs;
      Settle(code, pairs, stack, at, |text|);
    } else {
      var m := runs[i];
      RunInside(text, EMPHASIS, m);
      match TurnOf(text, code, word, m, stack) {
        case Closes(partner) =>
          RunOffCode(text, code, m);
          Closed(code, pairs, stack, at, partner, m);
          PartnerRuns(text, stack[partner], m);
          var p := Pair(stack[partner], m);
          EmphasisLaminar(text, code, word, runs, i + 1, stack[..partner], pairs + [p], m.end);
          var rest := EmphasisFrom(text, code, word, runs, i + 1, stack[..partner]);
          assert pairs + [p] + rest == pairs + ([p] + rest);
        case Opens =>
          RunOffCode(text, code, m);
          Opened(code, pairs, stack, at, m);
          EmphasisLaminar(text, code, word, runs, i + 1, stack + [m], pairs, m.end);
        case Stays =>
          EmphasisLaminar(text, code, word, runs, i + 1, stack, pairs, at);
      }
    }
  }

  predicate WordAt(text: string, i: int, word: char -> bool) {
    0 <= i < |text| && word(text[i])
  }

  lemma NothingNested(code: seq<Pair>)
    ensures Nested(code, [], [], 0)
  {}

  lemma PartnerRuns(text: string, open: Mark, close: Mark)
    requires IsRun(text, EMPHASIS, open) && IsRun(text, EMPHASIS, close) && RunText(text, open) == RunText(text, close)
    ensures SameRuns(text, EMPHASIS, Pair(open, close))
  {}

  // ----- links

  /** Links and images from position `i` on: `[` or `![` with `](destination)`. */
  function LinksFrom(text: string, code: seq<Pair>, i: nat, brackets: seq<nat>): seq<Pair>
    requires i <= |text|
    decreases |text| - i
  {
    if i == |text| then []
    else if (text[i] != '[' && text[i] != ']') || InCode(code, i) || Escaped(text, i) then LinksFrom(text, code, i + 1, brackets)
    else if text[i] == '[' then LinksFrom(text, code, i + 1, brackets + [i])
    else if brackets == [] then LinksFrom(text, code, i + 1, brackets)
    else
      var open, rest := brackets[|brackets| - 1], brackets[..|brackets| - 1];
      var close := LinkEnd(text, i);
      (if close < 0 then [] else [Link(text, open, i, close)]) + LinksFrom(text, code, i + 1, rest)
  }

  /** Where the destination after the `]` at `i` ends, or -1. */
  function LinkEnd(text: string, i: nat): (r: int)
    requires i < |text|
    ensures r >= 0 ==> i + 2 <= r < |text| && text[r] == ')' && text[i + 1] == '('
  {
    if i + 1 < |text| && text[i + 1] == '(' then
      var r := Find(text, ")", i + 2);
      assert r >= 0 ==> text[r..r + 1][0] == ')';
      r
    else -1
  }

  function Link(text: string, open: nat, i: nat, close: nat): Pair {
    var image := 0 < open <= |text| && text[open - 1] == '!' && !Escaped(text, open - 1);
    Pair(Mark(if image then open - 1 else open, open + 1), Mark(i, close + 1))
  }

  method FindLinks(text: string, code: seq<Pair>) returns (pairs: seq<Pair>)
    ensures pairs == LinksFrom(text, code, 0, [])
  {
    hide Escaped, InCode, LinkEnd, Link;
    pairs := [];
    var brackets: seq<nat> := [];
    for i := 0 to |text|
      invariant pairs + LinksFrom(text, code, i, brackets) == LinksFrom(text, code, 0, [])
    {
      var inCode := FindInCode(code, i);
      if (text[i] != '[' && text[i] != ']') || inCode || Escaped(text, i) { continue; }
      if text[i] == '[' {
        brackets := brackets + [i];
        continue;
      }
      if brackets == [] { continue; }
      var open := brackets[|brackets| - 1];
      brackets := brackets[..|brackets| - 1];
      var close := LinkEnd(text, i);
      if close < 0 { continue; }
      pairs := pairs + [Link(text, open, i, close)];
    }
  }

  lemma {:induction false} LinksProper(text: string, code: seq<Pair>, i: nat, brackets: seq<nat>)
    requires i <= |text| && forall k | 0 <= k < |brackets| :: brackets[k] < i
    ensures forall k | 0 <= k < |LinksFrom(text, code, i, brackets)| :: Proper(LinksFrom(text, code, i, brackets)[k], |text|)
    decreases |text| - i
  {
    hide Escaped, InCode;
    if i < |text| {
      LinksProper(text, code, i + 1, brackets);
      LinksProper(text, code, i + 1, brackets + [i]);
      if brackets != [] { LinksProper(text, code, i + 1, brackets[..|brackets| - 1]); }
    }
  }

  // ----- all of them

  lemma CodeEmphasisLaminar(code: seq<Pair>, emphasis: seq<Pair>, to: nat)
    requires Apart(code, to) && AllLaminar(emphasis)
    requires forall k | 0 <= k < |emphasis| ::
               Proper(emphasis[k], to) && OffCode(code, emphasis[k].open) && OffCode(code, emphasis[k].close)
    ensures AllLaminar(code + emphasis)
  {
    var all := code + emphasis;
    forall i, j | 0 <= i < j < |all|
      ensures Laminar(all[i], all[j])
    {
      if i < |code| <= j {
        var p, q := code[i], emphasis[j - |code|];
        assert q.open.end <= p.open.start || p.close.end <= q.open.start;
        assert q.close.end <= p.open.start || p.close.end <= q.close.start;
      }
    }
  }

  /** The delimiters of laminar pairs never overlap: each run is used once. */
  lemma LaminarMarksApart(pairs: seq<Pair>, to: nat, i: nat, j: nat)
    requires AllLaminar(pairs) && i < j < |pairs|
    requires forall k | 0 <= k < |pairs| :: Proper(pairs[k], to)
    ensures forall a, b | a in {pairs[i].open, pairs[i].close} && b in {pairs[j].open, pairs[j].close} ::
              a.end <= b.start || b.end <= a.start
  {
    assert Laminar(pairs[i], pairs[j]);
  }

  /** The markup pairs of a text: code spans, then emphasis, then links. */
  function Pairs(text: string, word: char -> bool): seq<Pair> {
    CodeSpans(text) + Emphasis(text, word) + LinksFrom(text, CodeSpans(text), 0, [])
  }

  method MarkupPairs(text: string, word: char -> bool) returns (pairs: seq<Pair>)
    ensures pairs == Pairs(text, word)
  {
    var code := FindCodeSpans(text);
    var emphasis := FindEmphasis(text, code, word);
    var links := FindLinks(text, code);
    pairs := code + emphasis + links;
  }

  /**
   * Code spans lie one after another, code and emphasis pairs are nested in
   * one another or apart, and each pair's delimiters are two runs of the
   * same text.
   */
  lemma MarkupIsLaminar(text: string, word: char -> bool)
    ensures Apart(CodeSpans(text), |text|) && AllLaminar(CodeSpans(text) + Emphasis(text, word))
    ensures forall k | 0 <= k < |CodeSpans(text)| :: SameRuns(text, TICK, CodeSpans(text)[k])
    ensures forall k | 0 <= k < |Emphasis(text, word)| :: SameRuns(text, EMPHASIS, Emphasis(text, word)[k])
    ensures forall k | 0 <= k < |Pairs(text, word)| :: Proper(Pairs(text, word)[k], |text|)
  {
    hide SameRuns, IsRun, EmphasisFrom, CodeFrom, LinksFrom, AllLaminar, OffCode, Apart, Runs, Proper;
    var code, emphasis := CodeSpans(text), Emphasis(text, word);
    CodeIsApart(text);
    EmphasisIsLaminar(text, word);
    CodeEmphasisLaminar(code, emphasis, |text|);
    LinksProper(text, code, 0, []);
    ApartProper(code, |text|);
  }

  lemma ApartProper(pairs: seq<Pair>, to: nat)
    requires Apart(pairs, to)
    ensures forall k | 0 <= k < |pairs| :: Proper(pairs[k], to)
  {}

  lemma CodeIsApart(text: string)
    ensures Apart(CodeSpans(text), |text|)
    ensures forall k | 0 <= k < |CodeSpans(text)| :: SameRuns(text, TICK, CodeSpans(text)[k])
  {
    hide SameRuns, IsRun, CodeFrom, Apart, Runs;
    var ticks := Runs(text, TICK, 0);
    RunsInOrder(text, TICK, 0);
    NoPairs();
    CodeApart(text, ticks, 0, [], 0);
    CodeSame(text, ticks, 0);
    assert [] + CodeSpans(text) == CodeSpans(text);
  }

  lemma EmphasisIsLaminar(text: string, word: char -> bool)
    ensures Settled(CodeSpans(text), Emphasis(text, word), |text|)
    ensures forall k | 0 <= k < |Emphasis(text, word)| :: SameRuns(text, EMPHASIS, Emphasis(text, word)[k])
  {
    hide SameRuns, IsRun, Nested, EmphasisFrom, CodeSpans, Settled, Runs;
    var code := CodeSpans(text);
    CodeIsApart(text);
    EmphasisRuns(text);
    NothingNested(code);
    EmphasisLaminar(text, code, word, Runs(text, EMPHASIS, 0), 0, [], [], 0);
    assert [] + Emphasis(text, word) == Emphasis(text, word);
  }
}
