/** Which runs of emphasis belong together, said of the runs and not of the stack. */
module EmphasisPairs {
  import opened Options
  import opened Text
  import opened Markup

  /** The run counts: it is outside code, not escaped, a strike of two, and no underscore inside a word. */
  predicate Counts(text: string, word: char -> bool, m: Mark) {
    && !InCode(CodeSpans(text), m.start) && !Escaped(text, m.start)
    && m.start < |text|
    && (text[m.start] == '~' ==> m.end - m.start == 2)
    && (text[m.start] == '_' ==> !(WordAt(text, m.start - 1, word) && WordAt(text, m.end, word)))
  }

  predicate CanOpen(text: string, word: char -> bool, m: Mark) {
    Counts(text, word, m) && !BlankAt(text, m.end)
  }

  predicate CanClose(text: string, word: char -> bool, m: Mark) {
    Counts(text, word, m) && !BlankAt(text, m.start - 1)
  }

  /** Before the run `c` the run `o` can open, and lies in no pair that is closed by then, delimiters counted. */
  ghost predicate Free(text: string, word: char -> bool, pairs: seq<Pair>, o: Mark, c: Mark) {
    CanOpen(text, word, o) && forall p | p in pairs && p.close.start < c.start :: !(p.open.start <= o.start <= p.close.start)
  }

  ghost predicate SameText(text: string, a: Mark, b: Mark) {
    a.start <= a.end <= |text| && b.start <= b.end <= |text| && RunText(text, a) == RunText(text, b)
  }

  /** The run `c` closes and `o` is the last run before it with its text that is free. */
  ghost predicate Chosen(text: string, word: char -> bool, pairs: seq<Pair>, o: Mark, c: Mark) {
    var runs := Runs(text, EMPHASIS, 0);
    && CanClose(text, word, c) && o in runs && o.start < c.start && SameText(text, o, c) && Free(text, word, pairs, o, c)
    && forall x | x in runs && o.start < x.start < c.start && SameText(text, x, c) :: !Free(text, word, pairs, x, c)
  }

  /** The stack before the `i`-th run: the runs before it that no pair so far has used or passed over, in order. */
  ghost predicate StackIs(text: string, word: char -> bool, i: nat, stack: seq<Mark>, pairs: seq<Pair>) {
    var runs := Runs(text, EMPHASIS, 0);
    && i <= |runs| && InOrder(stack, 0)
    && (forall p | p in pairs :: p.open in runs[..i] && p.close in runs[..i])
    && (forall m | m in stack :: m in runs[..i])
    && forall m | m in runs[..i] ::
         m in stack <==> CanOpen(text, word, m) && forall p | p in pairs :: !(p.open.start <= m.start <= p.close.start)
  }

  lemma RunsAre(text: string)
    ensures var runs := Runs(text, EMPHASIS, 0); InOrder(runs, 0) && OnText(text, runs)
  {
    RunsInOrder(text, EMPHASIS, 0);
  }

  lemma EarlierRuns(runs: seq<Mark>, i: nat, m: Mark)
    requires i < |runs| && InOrder(runs, 0) && m in runs[..i]
    ensures m in runs && m.end <= runs[i].start && m.start < m.end
  {
    var k :| 0 <= k < i && runs[..i][k] == m;
    assert runs[k] == m;
  }

  /** A run's turn, said of the run. */
  lemma TurnIs(text: string, word: char -> bool, m: Mark, stack: seq<Mark>)
    requires IsRun(text, EMPHASIS, m) && OnText(text, stack)
    ensures match TurnOf(text, CodeSpans(text), word, m, stack)
            case Closes(k) => CanClose(text, word, m) && k < |stack| && SameText(text, stack[k], m)
                              && forall j | k < j < |stack| :: !SameText(text, stack[j], m)
            case Opens => CanOpen(text, word, m)
            case Stays => !CanOpen(text, word, m)
    ensures !TurnOf(text, CodeSpans(text), word, m, stack).Closes? && CanClose(text, word, m) ==>
              forall j | 0 <= j < |stack| :: !SameText(text, stack[j], m)
  {
    hide CodeSpans, InCode, Escaped, BlankAt, WordAt, RunText, IsRun;
    RunInside(text, EMPHASIS, m);
    forall j | 0 <= j < |stack|
      ensures stack[j].start < stack[j].end <= |text|
    {
      RunInside(text, EMPHASIS, stack[j]);
    }
    PartnerIsLast(text, stack, RunText(text, m), |stack|);
  }

  lemma {:induction false} PartnerIsLast(text: string, stack: seq<Mark>, run: string, k: nat)
    requires k <= |stack| && forall i | 0 <= i < |stack| :: stack[i].start <= stack[i].end <= |text|
    ensures var r := Partner(text, stack, run, k);
            forall j | (if r == |stack| then 0 else r + 1) <= j < k :: RunText(text, stack[j]) != run
  {
    hide RunText;
    if k > 0 && RunText(text, stack[k - 1]) != run { PartnerIsLast(text, stack, run, k - 1); }
  }

  lemma NextRun(text: string, i: nat)
    requires i < |Runs(text, EMPHASIS, 0)|
    ensures var runs := Runs(text, EMPHASIS, 0);
            && runs[..i + 1] == runs[..i] + [runs[i]] && IsRun(text, EMPHASIS, runs[i]) && runs[i].start < runs[i].end
            && forall x | x in runs[..i] :: x in runs && x.end <= runs[i].start && x.start < x.end
  {
    RunsAre(text);
    var runs := Runs(text, EMPHASIS, 0);
    hide Runs;
    forall x | x in runs[..i]
      ensures x in runs && x.end <= runs[i].start && x.start < x.end
    {
      EarlierRuns(runs, i, x);
    }
  }

  lemma StackStays(text: string, word: char -> bool, i: nat, stack: seq<Mark>, pairs: seq<Pair>)
    requires StackIs(text, word, i, stack, pairs) && i < |Runs(text, EMPHASIS, 0)| && !CanOpen(text, word, Runs(text, EMPHASIS, 0)[i])
    ensures StackIs(text, word, i + 1, stack, pairs)
  {
    NextRun(text, i);
    hide Runs, CanOpen, IsRun;
  }

  lemma StackOpens(text: string, word: char -> bool, i: nat, stack: seq<Mark>, pairs: seq<Pair>)
    requires StackIs(text, word, i, stack, pairs) && i < |Runs(text, EMPHASIS, 0)| && CanOpen(text, word, Runs(text, EMPHASIS, 0)[i])
    ensures StackIs(text, word, i + 1, stack + [Runs(text, EMPHASIS, 0)[i]], pairs)
  {
    NextRun(text, i);
    hide Runs, CanOpen, IsRun;
    var m := Runs(text, EMPHASIS, 0)[i];
    assert forall x :: x in stack + [m] <==> x in stack || x == m;
  }

  lemma StackCloses(text: string, word: char -> bool, i: nat, stack: seq<Mark>, pairs: seq<Pair>, k: nat)
    requires StackIs(text, word, i, stack, pairs) && i < |Runs(text, EMPHASIS, 0)| && k < |stack|
    ensures StackIs(text, word, i + 1, stack[..k], pairs + [Pair(stack[k], Runs(text, EMPHASIS, 0)[i])])
  {
    NextRun(text, i);
    hide Runs, CanOpen, IsRun;
    var runs := Runs(text, EMPHASIS, 0);
    var p := Pair(stack[k], runs[i]);
    StackCut(stack, k);
    var more := pairs + [p];
    assert forall q :: q in more <==> q in pairs || q == p;
    assert forall x :: x in stack[..k] ==> x in stack;
    forall m | m in runs[..i + 1]
      ensures m in stack[..k] <==> CanOpen(text, word, m) && forall q | q in more :: !(q.open.start <= m.start <= q.close.start)
    {
      if m in runs[..i] {
        assert m in stack <==> CanOpen(text, word, m) && forall q | q in pairs :: !(q.open.start <= m.start <= q.close.start);
      } else {
        assert m == runs[i];
      }
    }
  }

  lemma StackNext(text: string, word: char -> bool, i: nat, stack: seq<Mark>, pairs: seq<Pair>)
    requires StackIs(text, word, i, stack, pairs) && i < |Runs(text, EMPHASIS, 0)|
    ensures OnText(text, stack) && IsRun(text, EMPHASIS, Runs(text, EMPHASIS, 0)[i])
    ensures var m := Runs(text, EMPHASIS, 0)[i];
            match TurnOf(text, CodeSpans(text), word, m, stack)
            case Closes(k) => StackIs(text, word, i + 1, stack[..k], pairs + [Pair(stack[k], m)])
            case Opens => StackIs(text, word, i + 1, stack + [m], pairs)
            case Stays => StackIs(text, word, i + 1, stack, pairs)
  {
    RunsAre(text);
    var runs := Runs(text, EMPHASIS, 0);
    assert StackFrom(stack, runs, i);
    OnStack(text, stack, runs, i);
    TurnIs(text, word, runs[i], stack);
    hide Runs, IsRun, StackIs, TurnOf, CanOpen, CanClose, SameText, CodeSpans, OnText;
    match TurnOf(text, CodeSpans(text), word, runs[i], stack) {
      case Closes(k) => StackCloses(text, word, i, stack, pairs, k);
      case Opens => StackOpens(text, word, i, stack, pairs);
      case Stays => StackStays(text, word, i, stack, pairs);
    }
  }

  lemma StackCut(stack: seq<Mark>, k: nat)
    requires InOrder(stack, 0) && k < |stack|
    ensures InOrder(stack[..k], 0) && stack[k] in stack
    ensures forall x | x in stack :: x in stack[..k] <==> x.start < stack[k].start
  {
    forall x | x in stack
      ensures x in stack[..k] <==> x.start < stack[k].start
    {
      var j :| 0 <= j < |stack| && stack[j] == x;
      if j < k { assert stack[..k][j] == x; }
      if x in stack[..k] { var h :| 0 <= h < k && stack[..k][h] == x; }
    }
  }

  ghost predicate StackFrom(stack: seq<Mark>, runs: seq<Mark>, i: nat)
    requires i < |runs|
  {
    forall m | m in stack :: m in runs[..i]
  }

  lemma OnStack(text: string, stack: seq<Mark>, runs: seq<Mark>, i: nat)
    requires i < |runs| && OnText(text, runs) && StackFrom(stack, runs, i)
    ensures OnText(text, stack) && IsRun(text, EMPHASIS, runs[i])
  {
    hide IsRun;
    forall k | 0 <= k < |stack|
      ensures IsRun(text, EMPHASIS, stack[k])
    {
      assert stack[k] in runs[..i];
      var j :| 0 <= j < i && runs[..i][j] == stack[k];
      assert runs[j] == stack[k];
    }
  }

  // ----- the pairs

  /** Which opener the `i`-th run closes, when it closes one. */
  lemma ChosenHere(text: string, word: char -> bool, i: nat, stack: seq<Mark>, pairs: seq<Pair>, o: Mark)
    requires StackIs(text, word, i, stack, pairs) && i < |Runs(text, EMPHASIS, 0)|
    requires OnText(text, stack) && IsRun(text, EMPHASIS, Runs(text, EMPHASIS, 0)[i])
    ensures var m := Runs(text, EMPHASIS, 0)[i]; var turn := TurnOf(text, CodeSpans(text), word, m, stack);
            Chosen(text, word, pairs, o, m) <==> turn.Closes? && stack[turn.partner] == o
  {
    NextRun(text, i);
    var runs := Runs(text, EMPHASIS, 0);
    var m := runs[i];
    TurnIs(text, word, m, stack);
    EarlierIs(runs, i) by { RunsAre(text); }
    hide Runs, IsRun, TurnOf, CanOpen, CanClose, SameText, CodeSpans, OnText;
    forall x | x in runs && x.start < m.start
      ensures x in runs[..i] && (Free(text, word, pairs, x, m) <==> x in stack)
    {}
    var turn := TurnOf(text, CodeSpans(text), word, m, stack);
    if turn.Closes? {
      LastOnStack(text, stack, turn.partner, m);
    }
  }

  lemma EarlierIs(runs: seq<Mark>, i: nat)
    requires i < |runs| && InOrder(runs, 0)
    ensures forall x | x in runs && x.start < runs[i].start :: x in runs[..i]
  {
    forall x | x in runs && x.start < runs[i].start
      ensures x in runs[..i]
    {
      var j :| 0 <= j < |runs| && runs[j] == x;
      assert j < i;
      assert runs[..i][j] == x;
    }
  }

  lemma LastOnStack(text: string, stack: seq<Mark>, k: nat, m: Mark)
    requires InOrder(stack, 0) && k < |stack| && forall j | k < j < |stack| :: !SameText(text, stack[j], m)
    ensures forall x | x in stack && SameText(text, x, m) :: x.start <= stack[k].start
  {
    hide SameText;
    forall x | x in stack && SameText(text, x, m)
      ensures x.start <= stack[k].start
    {
      var j :| 0 <= j < |stack| && stack[j] == x;
      if j < k { assert stack[j].end <= stack[k].start; }
    }
  }

  /** Pairs that close later do not bear on what is free. */
  lemma SameFree(text: string, word: char -> bool, pairs: seq<Pair>, all: seq<Pair>, c: Mark)
    requires forall p :: p in pairs ==> p in all
    requires forall p | p in all && p.close.start < c.start :: p in pairs
    ensures forall o :: Chosen(text, word, all, o, c) <==> Chosen(text, word, pairs, o, c)
  {
    hide CanOpen, CanClose, SameText, Runs;
    assert forall o :: Free(text, word, all, o, c) <==> Free(text, word, pairs, o, c);
  }

  /** The pairs found from the `i`-th run on close at it or later. */
  ghost predicate ClosesFrom(runs: seq<Mark>, more: seq<Pair>, i: nat) {
    forall p | p in more :: exists j: nat :: i <= j < |runs| && runs[j] == p.close
  }

  lemma {:induction false} LaterCloses(text: string, code: seq<Pair>, word: char -> bool, runs: seq<Mark>, i: nat, stack: seq<Mark>)
    requires i <= |runs| && OnText(text, runs) && OnText(text, stack)
    ensures ClosesFrom(runs, EmphasisFrom(text, code, word, runs, i, stack), i)
    decreases |runs| - i
  {
    hide TurnOf, IsRun;
    if i < |runs| {
      match TurnOf(text, code, word, runs[i], stack) {
        case Closes(k) => LaterCloses(text, code, word, runs, i + 1, stack[..k]);
        case Opens => LaterCloses(text, code, word, runs, i + 1, stack + [runs[i]]);
        case Stays => LaterCloses(text, code, word, runs, i + 1, stack);
      }
    }
  }

  /** One run's part in the pairs: those before it are settled, and it pairs with the run it chooses. */
  lemma PairHere(text: string, word: char -> bool, i: nat, stack: seq<Mark>, pairs: seq<Pair>, more: seq<Pair>, o: Mark)
    requires StackIs(text, word, i, stack, pairs) && i < |Runs(text, EMPHASIS, 0)|
    requires OnText(text, stack) && IsRun(text, EMPHASIS, Runs(text, EMPHASIS, 0)[i])
    requires var m := Runs(text, EMPHASIS, 0)[i]; var turn := TurnOf(text, CodeSpans(text), word, m, stack);
             forall p | p in more :: p.close.start > m.start || (turn.Closes? && p == Pair(stack[turn.partner], m))
    requires var m := Runs(text, EMPHASIS, 0)[i]; var turn := TurnOf(text, CodeSpans(text), word, m, stack);
             turn.Closes? ==> Pair(stack[turn.partner], m) in more
    ensures var m := Runs(text, EMPHASIS, 0)[i];
            Pair(o, m) in pairs + more <==> Chosen(text, word, pairs + more, o, m)
  {
    NextRun(text, i);
    ChosenHere(text, word, i, stack, pairs, o);
    var m := Runs(text, EMPHASIS, 0)[i];
    hide Runs, IsRun, TurnOf, CodeSpans, OnText, Chosen;
    forall p | p in pairs + more && p.close.start < m.start
      ensures p in pairs
    {}
    SameFree(text, word, pairs, pairs + more, m);
    assert forall p | p in pairs :: p.close in Runs(text, EMPHASIS, 0)[..i];
  }

  /** The stack after a run's turn, and the pair it makes. */
  function After(text: string, word: char -> bool, m: Mark, stack: seq<Mark>): (r: (seq<Mark>, seq<Pair>))
    requires IsRun(text, EMPHASIS, m) && OnText(text, stack)
    ensures OnText(text, r.0)
  {
    match TurnOf(text, CodeSpans(text), word, m, stack)
    case Closes(k) => (stack[..k], [Pair(stack[k], m)])
    case Opens => (stack + [m], [])
    case Stays => (stack, [])
  }

  lemma EmphasisStep(text: string, word: char -> bool, runs: seq<Mark>, i: nat, stack: seq<Mark>)
    requires i < |runs| && OnText(text, runs) && OnText(text, stack)
    ensures IsRun(text, EMPHASIS, runs[i])
    ensures var (stack', own) := After(text, word, runs[i], stack);
            EmphasisFrom(text, CodeSpans(text), word, runs, i, stack) == own + EmphasisFrom(text, CodeSpans(text), word, runs, i + 1, stack')
  {
    hide TurnOf, IsRun, CodeSpans;
    assert forall rest: seq<Pair> :: [] + rest == rest;
  }

  lemma StackAfter(text: string, word: char -> bool, i: nat, stack: seq<Mark>, pairs: seq<Pair>)
    requires StackIs(text, word, i, stack, pairs) && i < |Runs(text, EMPHASIS, 0)|
    ensures OnText(text, stack) && IsRun(text, EMPHASIS, Runs(text, EMPHASIS, 0)[i])
    ensures var (stack', own) := After(text, word, Runs(text, EMPHASIS, 0)[i], stack);
            StackIs(text, word, i + 1, stack', pairs + own)
  {
    StackNext(text, word, i, stack, pairs);
    hide StackIs, TurnOf, IsRun, Runs, CodeSpans, OnText;
    assert pairs + [] == pairs;
  }

  lemma PairAt(text: string, word: char -> bool, i: nat, stack: seq<Mark>, pairs: seq<Pair>, o: Mark)
    requires StackIs(text, word, i, stack, pairs) && i < |Runs(text, EMPHASIS, 0)|
    requires OnText(text, Runs(text, EMPHASIS, 0)) && OnText(text, stack)
    ensures var all, c := pairs + EmphasisFrom(text, CodeSpans(text), word, Runs(text, EMPHASIS, 0), i, stack), Runs(text, EMPHASIS, 0)[i];
            Pair(o, c) in all <==> Chosen(text, word, all, o, c)
  {
    var runs := Runs(text, EMPHASIS, 0);
    RunsAre(text);
    EmphasisStep(text, word, runs, i, stack);
    var (stack', own) := After(text, word, runs[i], stack);
    LaterCloses(text, CodeSpans(text), word, runs, i + 1, stack');
    var rest := EmphasisFrom(text, CodeSpans(text), word, runs, i + 1, stack');
    LaterFrom(runs, rest, i);
    hide EmphasisFrom, Runs, CodeSpans, TurnOf, IsRun, StackIs, Chosen, OnText, InOrder, ClosesFrom;
    PairHere(text, word, i, stack, pairs, own + rest, o);
  }

  lemma LaterFrom(runs: seq<Mark>, rest: seq<Pair>, i: nat)
    requires InOrder(runs, 0) && i < |runs| && ClosesFrom(runs, rest, i + 1)
    ensures forall p | p in rest :: p.close.start > runs[i].start
  {}

  lemma {:induction false} PairsFrom(text: string, word: char -> bool, i: nat, stack: seq<Mark>, pairs: seq<Pair>, o: Mark, j: nat)
    requires StackIs(text, word, i, stack, pairs) && i <= j < |Runs(text, EMPHASIS, 0)|
    requires OnText(text, Runs(text, EMPHASIS, 0)) && OnText(text, stack)
    ensures var all, c := pairs + EmphasisFrom(text, CodeSpans(text), word, Runs(text, EMPHASIS, 0), i, stack), Runs(text, EMPHASIS, 0)[j];
            Pair(o, c) in all <==> Chosen(text, word, all, o, c)
    decreases j - i
  {
    hide EmphasisFrom, Runs, CodeSpans, IsRun, StackIs, Chosen, OnText, After;
    if j > i {
      var runs := Runs(text, EMPHASIS, 0);
      StackAfter(text, word, i, stack, pairs);
      EmphasisStep(text, word, runs, i, stack);
      var (stack', own) := After(text, word, runs[i], stack);
      PairsFrom(text, word, i + 1, stack', pairs + own, o, j);
      var rest := EmphasisFrom(text, CodeSpans(text), word, runs, i + 1, stack');
      assert pairs + (own + rest) == pairs + own + rest;
    } else {
      PairAt(text, word, i, stack, pairs, o);
    }
  }

  /**
   * Two runs belong together exactly when the later one can close and the
   * earlier is the last before it with its text that can open and lies in
   * no pair closed by then: neither used nor passed over.
   */
  lemma EmphasisIs(text: string, word: char -> bool, o: Mark, c: Mark)
    requires c in Runs(text, EMPHASIS, 0)
    ensures Pair(o, c) in Emphasis(text, word) <==> Chosen(text, word, Emphasis(text, word), o, c)
  {
    RunsAre(text);
    hide Runs, IsRun, Chosen, CanOpen, EmphasisFrom, CodeSpans;
    var runs := Runs(text, EMPHASIS, 0);
    var j :| 0 <= j < |runs| && runs[j] == c;
    assert StackIs(text, word, 0, [], []);
    PairsFrom(text, word, 0, [], [], o, j);
    assert [] + Emphasis(text, word) == Emphasis(text, word);
  }

  /** The closing half of every pair is one of the runs. */
  lemma EmphasisCloses(text: string, word: char -> bool, p: Pair)
    requires p in Emphasis(text, word)
    ensures p.close in Runs(text, EMPHASIS, 0)
  {
    RunsAre(text);
    hide Runs, IsRun, EmphasisFrom, CodeSpans;
    LaterCloses(text, CodeSpans(text), word, Runs(text, EMPHASIS, 0), 0, []);
  }
}
