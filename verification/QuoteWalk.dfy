/** Numbering the occurrences of a quote in a text, and finding the numbered one again. */
module QuoteWalk {
  import opened Options
  import opened Text

  /** The matches as the walk meets them: each resumes after the one before ends, so they never overlap. */
  function Walk(text: string, quote: string, from: nat): (r: seq<nat>)
    requires quote != "" && from <= |text|
    decreases |text| - from
  {
    var at := Find(text, quote, from);
    if at < 0 then [] else [at] + Walk(text, quote, at + |quote|)
  }

  /** True matches from `from` on, none starting before the one before it ends. */
  ghost predicate Spaced(text: string, quote: string, from: nat, matches: seq<nat>) {
    && (forall i | 0 <= i < |matches| :: from <= matches[i] && At(text, quote, matches[i]))
    && (forall i, j | 0 <= i < j < |matches| :: matches[i] + |quote| <= matches[j])
  }

  lemma {:induction false} WalkSpaced(text: string, quote: string, from: nat)
    requires quote != "" && from <= |text|
    ensures Spaced(text, quote, from, Walk(text, quote, from))
    decreases |text| - from
  {
    hide At;
    var at := Find(text, quote, from);
    if at >= 0 {
      MatchInside(text, quote, at);
      WalkSpaced(text, quote, at + |quote|);
      SpacedPrepend(text, quote, from, at, Walk(text, quote, at + |quote|));
    }
  }

  lemma SpacedPrepend(text: string, quote: string, from: nat, at: nat, rest: seq<nat>)
    requires from <= at && At(text, quote, at) && Spaced(text, quote, at + |quote|, rest)
    ensures Spaced(text, quote, from, [at] + rest)
  {
    hide At;
  }

  lemma MatchInside(text: string, quote: string, at: int)
    requires At(text, quote, at)
    ensures 0 <= at && at + |quote| <= |text|
  {}

  function Max(a: int, b: int): int {
    if a > b then a else b
  }

  /** The number of walked matches that start before `start`. */
  function Before(matches: seq<nat>, start: int): (n: nat)
    ensures n <= |matches|
  {
    if matches == [] || matches[0] >= start then 0 else 1 + Before(matches[1..], start)
  }

  /** Which occurrence starts at `start`: the walk stops at it, or at the first match past it. */
  function Occurrence(text: string, quote: string, start: int): nat
    requires quote != ""
  {
    var matches := Walk(text, quote, 0);
    var n := Before(matches, start);
    if n < |matches| && matches[n] == start then n + 1 else Max(n, 1)
  }

  /** The walk of the page code. It runs forever on an empty quote that is not at the start. */
  method OccurrenceAt(text: string, quote: string, start: int) returns (r: nat)
    requires quote != "" || start <= 0
    ensures r >= 1
    ensures quote != "" ==> r == Occurrence(text, quote, start)
    ensures quote == "" ==> r == 1
  {
    var from, n := 0, 0;
    while true
      invariant from <= |text|
      invariant quote == "" ==> from == 0 && n == 0
      invariant quote != "" ==> Walked(text, quote, start, from, n)
      decreases |text| - from
    {
      var at := Find(text, quote, from);
      if quote != "" { WalkStep(text, quote, start, from, n); }
      if at < 0 || at > start { return Max(n, 1); }
      n := n + 1;
      if at == start { return n; }
      from := at + |quote|;
    }
  }

  /** `n` matches start before `start` and end at or before `from`; the rest of the walk resumes there. */
  ghost predicate Walked(text: string, quote: string, start: int, from: nat, n: nat)
    requires quote != ""
  {
    var matches := Walk(text, quote, 0);
    && from <= |text| && n <= |matches|
    && matches[n..] == Walk(text, quote, from)
    && forall i | 0 <= i < n :: matches[i] < start
  }

  lemma WalkStep(text: string, quote: string, start: int, from: nat, n: nat)
    requires quote != "" && Walked(text, quote, start, from, n)
    ensures var at := Find(text, quote, from);
            if at < 0 || at > start then Occurrence(text, quote, start) == Max(n, 1)
            else if at == start then Occurrence(text, quote, start) == n + 1
            else Walked(text, quote, start, at + |quote|, n + 1)
  {
    var matches := Walk(text, quote, 0);
    var at := Find(text, quote, from);
    if at >= 0 {
      assert matches[n] == matches[n..][0] == at;
      assert matches[n + 1..] == matches[n..][1..];
    } else {
      assert |matches| == n;
    }
    if at < 0 || at >= start { BeforeIs(matches, start, n); }
  }

  lemma {:induction false} BeforeIs(matches: seq<nat>, start: int, n: nat)
    requires n <= |matches| && (forall i | 0 <= i < n :: matches[i] < start)
    requires n < |matches| ==> matches[n] >= start
    ensures Before(matches, start) == n
  {
    if n > 0 { BeforeIs(matches[1..], start, n - 1); }
  }

  function Located(text: string, quote: string, occurrence: int): Option<(nat, nat)> {
    if quote == "" then Some((0, |text|))
    else
      var matches, n := Walk(text, quote, 0), Max(occurrence, 1);
      if n <= |matches| then Some((matches[n - 1], matches[n - 1] + |quote|)) else None
  }

  method LocateQuote(text: string, quote: string, occurrence: int) returns (r: Option<(nat, nat)>)
    ensures r == Located(text, quote, occurrence)
  {
    hide At;
    if quote == "" { return Some((0, |text|)); }
    var from: nat, n: nat := 0, 1;
    ghost var matches := Walk(text, quote, 0);
    while n <= Max(occurrence, 1)
      invariant from <= |text| && 1 <= n <= |matches| + 1
      invariant n <= Max(occurrence, 1)
      invariant matches[n - 1..] == Walk(text, quote, from)
      decreases Max(occurrence, 1) - n
    {
      var at := Find(text, quote, from);
      if at < 0 {
        assert |matches| == n - 1;
        return None;
      }
      MatchInside(text, quote, at);
      assert matches[n - 1] == matches[n - 1..][0] == at;
      assert matches[n..] == matches[n - 1..][1..];
      if n == Max(occurrence, 1) { return Some((at, at + |quote|)); }
      from := at + |quote|;
      n := n + 1;
    }
    assert false;
    r := None;
  }

  /** The number given to the n-th located match is n. */
  lemma NumberOfLocated(text: string, quote: string, n: nat)
    requires quote != "" && n >= 1 && Located(text, quote, n).Some?
    ensures Occurrence(text, quote, Located(text, quote, n).value.0) == n
  {
    hide At, Walk;
    var matches := Walk(text, quote, 0);
    WalkSpaced(text, quote, 0);
    assert forall i | 0 <= i < n - 1 :: matches[i] + |quote| <= matches[n - 1];
    BeforeIs(matches, matches[n - 1], n - 1);
  }

  /**
   * The number given to a true match leads back to it, or to the one walked
   * match that overlaps it from the left.
   */
  lemma LocatedOfNumber(text: string, quote: string, start: nat)
    requires quote != "" && At(text, quote, start)
    ensures var found := Located(text, quote, Occurrence(text, quote, start));
            && found.Some?
            && found.value.0 <= start < found.value.1
            && forall m | m in Walk(text, quote, 0) && m <= start < m + |quote| :: m == found.value.0
  {
    hide At, Walk;
    var matches := Walk(text, quote, 0);
    WalkSpaced(text, quote, 0);
    var k := WalkCovers(text, quote, 0, start);
    BeforeIs(matches, start, if matches[k] == start then k else k + 1);
    Apart(matches, |quote|, k, start);
  }

  lemma Apart(matches: seq<nat>, length: nat, k: nat, start: nat)
    requires forall i, j | 0 <= i < j < |matches| :: matches[i] + length <= matches[j]
    requires k < |matches| && matches[k] <= start < matches[k] + length
    ensures forall m | m in matches && m <= start < m + length :: m == matches[k]
  {}

  /** No true match is missed: a walked match is it, or overlaps it from the left. */
  lemma {:induction false} WalkCovers(text: string, quote: string, from: nat, start: nat) returns (k: nat)
    requires quote != "" && from <= start && At(text, quote, start)
    requires from <= |text|
    ensures k < |Walk(text, quote, from)|
    ensures Walk(text, quote, from)[k] <= start < Walk(text, quote, from)[k] + |quote|
    ensures forall i | 0 <= i < k :: Walk(text, quote, from)[i] < start
    ensures k + 1 < |Walk(text, quote, from)| ==> start < Walk(text, quote, from)[k + 1]
    decreases |text| - from
  {
    hide At;
    var at := Find(text, quote, from);
    MatchInside(text, quote, start);
    MatchInside(text, quote, at);
    if start < at + |quote| {
      k := 0;
      WalkSpaced(text, quote, from);
    } else {
      var k' := WalkCovers(text, quote, at + |quote|, start);
      k := k' + 1;
      assert Walk(text, quote, from)[k] == Walk(text, quote, at + |quote|)[k'];
    }
  }

  // ----- the empty quote

  datatype Loop = Running(from: nat, n: nat) | Returned(n: nat)

  /** One turn of the numbering loop. */
  function Turn(text: string, quote: string, start: int, state: Loop): Loop
    requires state.Running? ==> state.from <= |text|
    ensures Turn(text, quote, start, state).Running? ==> Turn(text, quote, start, state).from <= |text|
  {
    match state
    case Returned(_) => state
    case Running(from, n) =>
      var at := Find(text, quote, from);
      if at < 0 || at > start then Returned(Max(n, 1))
      else if at == start then Returned(n + 1)
      else Running(at + |quote|, n + 1)
  }

  function Turns(text: string, quote: string, start: int, k: nat): (state: Loop)
    ensures state.Running? ==> state.from <= |text|
  {
    if k == 0 then Running(0, 0) else Turn(text, quote, start, Turns(text, quote, start, k - 1))
  }

  lemma {:induction false} EmptyQuoteRuns(text: string, start: int, k: nat)
    requires start > 0
    ensures Turns(text, "", start, k) == Running(0, k)
  {
    if k > 0 {
      EmptyQuoteRuns(text, start, k - 1);
      assert At(text, "", 0);
    }
  }

  lemma {:induction false} QuoteAdvances(text: string, quote: string, start: int, k: nat)
    requires quote != ""
    ensures Turns(text, quote, start, k).Running? ==> Turns(text, quote, start, k).from >= k
  {
    if k > 0 { QuoteAdvances(text, quote, start, k - 1); }
  }

  /** The numbering loop ends exactly when the quote is not empty or the start is not inside the text. */
  lemma NumberingEnds(text: string, quote: string, start: int)
    ensures (exists k :: Turns(text, quote, start, k).Returned?) <==> quote != "" || start <= 0
  {
    if quote != "" {
      QuoteAdvances(text, quote, start, |text| + 1);
      assert Turns(text, quote, start, |text| + 1).Returned?;
    } else if start > 0 {
      forall k: nat
        ensures Turns(text, quote, start, k).Running?
      {
        EmptyQuoteRuns(text, start, k);
      }
    } else {
      assert At(text, "", 0);
      assert Turns(text, quote, start, 1) == Turn(text, quote, start, Running(0, 0));
    }
  }

  /** The empty quote is the whole text, a number below one means the first match, and one past the last match finds nothing. */
  lemma LocatedEdges(text: string, quote: string, occurrence: int)
    ensures quote == "" ==> Located(text, quote, occurrence) == Some((0, |text|))
    ensures occurrence < 1 ==> Located(text, quote, occurrence) == Located(text, quote, 1)
    ensures quote != "" ==> (Located(text, quote, occurrence).None? <==> Max(occurrence, 1) > |Walk(text, quote, 0)|)
    ensures quote != "" ==> (Located(text, quote, 1).None? <==> forall i :: !At(text, quote, i))
  {
    NoneBefore(text, quote);
    hide At;
    if quote != "" {
      var at := Find(text, quote, 0);
      if at >= 0 { assert At(text, quote, at) && |Walk(text, quote, 0)| >= 1; } else { assert Walk(text, quote, 0) == []; }
    }
  }

  lemma NoneBefore(text: string, quote: string)
    ensures forall i | i < 0 :: !At(text, quote, i)
  {}
}
