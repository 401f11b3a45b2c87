/** Which tick runs make a code span, said of the runs. */
module CodeRuns {
  import opened Text
  import opened Markup

  function Length(m: Mark): int {
    m.end - m.start
  }

  /** The run lies in a span or closes one. */
  ghost predicate Passed(pairs: seq<Pair>, m: Mark) {
    exists p :: p in pairs && p.open.start < m.start <= p.close.start
  }

  /** The `l`-th run is the first after the `k`-th of its length. */
  predicate NextOfLength(ticks: seq<Mark>, k: nat, l: nat) {
    k < l < |ticks| && Length(ticks[l]) == Length(ticks[k]) && forall j | k < j < l :: Length(ticks[j]) != Length(ticks[k])
  }

  lemma PartnerIs(text: string, ticks: seq<Mark>, k: nat, l: nat)
    requires k < |ticks| && l < |ticks|
    ensures CodePartner(text, ticks, k) == l <==> !Escaped(text, ticks[k].start) && NextOfLength(ticks, k, l)
  {
    hide Escaped;
  }

  lemma {:induction false} OpensLater(text: string, ticks: seq<Mark>, i: nat)
    requires i <= |ticks| && InOrder(ticks, 0)
    ensures forall p | p in CodeFrom(text, ticks, i) :: i < |ticks| && ticks[i].start <= p.open.start < p.close.start
    decreases |ticks| - i
  {
    hide CodePartner;
    if i < |ticks| {
      var j := CodePartner(text, ticks, i);
      if j == |ticks| { OpensLater(text, ticks, i + 1); } else { OpensLater(text, ticks, j + 1); }
    }
  }

  ghost predicate IsSpan(text: string, ticks: seq<Mark>, pairs: seq<Pair>, k: nat, l: nat)
    requires k < |ticks|
  {
    !Escaped(text, ticks[k].start) && NextOfLength(ticks, k, l) && !Passed(pairs, ticks[k])
  }

  /** A span found, and what the rest makes of the runs behind it. */
  lemma OwnAndRest(text: string, ticks: seq<Mark>, rest: seq<Pair>, i: nat, j: nat, k: nat, l: nat)
    requires i < j < |ticks| && i <= k < |ticks| && l < |ticks|
    requires forall a, b | 0 <= a < b < |ticks| :: ticks[a].start < ticks[b].start
    requires forall p | p in rest :: ticks[j].start < p.open.start < p.close.start
    requires !Escaped(text, ticks[i].start) && NextOfLength(ticks, i, j)
    requires k > j ==> (Pair(ticks[k], ticks[l]) in rest <==> IsSpan(text, ticks, rest, k, l))
    ensures Pair(ticks[k], ticks[l]) in [Pair(ticks[i], ticks[j])] + rest
       <==> IsSpan(text, ticks, [Pair(ticks[i], ticks[j])] + rest, k, l)
  {
    hide Escaped, Length;
    var own := Pair(ticks[i], ticks[j]);
    var all := [own] + rest;
    assert forall p :: p in all <==> p == own || p in rest;
    if k == i {
      assert NextOfLength(ticks, i, l) <==> l == j;
    } else if k <= j {
      assert own in all && own.open.start < ticks[k].start <= own.close.start;
    } else {
      assert Passed(all, ticks[k]) <==> Passed(rest, ticks[k]);
    }
  }

  lemma CodeStep(text: string, ticks: seq<Mark>, i: nat)
    requires i < |ticks|
    ensures var j := CodePartner(text, ticks, i);
            && (j == |ticks| || i < j < |ticks|)
            && CodeFrom(text, ticks, i)
               == if j == |ticks| then CodeFrom(text, ticks, i + 1) else [Pair(ticks[i], ticks[j])] + CodeFrom(text, ticks, j + 1)
  {}

  lemma {:induction false} CodeFromIs(text: string, ticks: seq<Mark>, i: nat, k: nat, l: nat)
    requires i <= k < |ticks| && l < |ticks| && InOrder(ticks, 0)
    ensures Pair(ticks[k], ticks[l]) in CodeFrom(text, ticks, i) <==> IsSpan(text, ticks, CodeFrom(text, ticks, i), k, l)
    decreases |ticks| - i
  {
    hide CodeFrom, CodePartner, Escaped, NextOfLength, InOrder, Passed;
    CodeStep(text, ticks, i);
    TicksApart(ticks);
    var j := CodePartner(text, ticks, i);
    if j == |ticks| {
      OpensLater(text, ticks, i + 1);
      PartnerIs(text, ticks, i, l);
      if k > i { CodeFromIs(text, ticks, i + 1, k, l); }
    } else {
      OpensLater(text, ticks, j + 1);
      PartnerIs(text, ticks, i, j);
      if k > j { CodeFromIs(text, ticks, j + 1, k, l); }
      hide IsSpan;
      OwnAndRest(text, ticks, CodeFrom(text, ticks, j + 1), i, j, k, l);
    }
  }

  lemma TicksApart(ticks: seq<Mark>)
    requires InOrder(ticks, 0)
    ensures forall a, b | 0 <= a < b < |ticks| :: ticks[a].start < ticks[b].start
  {}

  /** Two tick runs make a code span exactly when the first is not escaped, no earlier span holds it or ends with it, and the second is the next run of its length. */
  lemma CodeIs(text: string, k: nat, l: nat)
    requires k < |Runs(text, TICK, 0)| && l < |Runs(text, TICK, 0)|
    ensures var ticks := Runs(text, TICK, 0);
            Pair(ticks[k], ticks[l]) in CodeSpans(text) <==> IsSpan(text, ticks, CodeSpans(text), k, l)
  {
    hide Runs, CodeFrom, IsSpan;
    RunsInOrder(text, TICK, 0);
    CodeFromIs(text, Runs(text, TICK, 0), 0, k, l);
  }

  /** The character is escaped exactly when an odd number of backslashes stands before it. */
  lemma {:induction false} EscapedIs(text: string, i: nat, n: nat)
    requires n <= i <= |text| && (forall k | i - n <= k < i :: text[k] == '\\') && (i > n ==> text[i - n - 1] != '\\')
    ensures Escaped(text, i) <==> n % 2 == 1
  {
    if n > 0 { EscapedIs(text, i - 1, n - 1); }
  }

  /** A run of one mark that the text does not continue on either side. */
  predicate IsWhole(text: string, marks: set<char>, m: Mark) {
    && IsRun(text, marks, m)
    && (m.start > 0 ==> text[m.start - 1] != text[m.start]) && (m.end < |text| ==> text[m.end] != text[m.start])
  }

  /** No run goes on over the place. */
  predicate Between(text: string, marks: set<char>, i: nat) {
    i == 0 || i >= |text| || text[i] !in marks || text[i - 1] != text[i]
  }

  /** From the start of a run on, the first whole run is that one. */
  lemma FirstRun(text: string, marks: set<char>, i: nat, m: Mark)
    requires i < |text| && text[i] in marks && Between(text, marks, i)
    ensures var end := RunEnd(text, text[i], i + 1);
            && IsWhole(text, marks, Mark(i, end)) && Between(text, marks, end)
            && (IsWhole(text, marks, m) && i <= m.start ==> m == Mark(i, end) || end <= m.start)
  {}

  /** No whole run starts past the last character or at a character that is no mark. */
  lemma NoRun(text: string, marks: set<char>, i: nat, m: Mark)
    requires i == |text| || (i < |text| && text[i] !in marks)
    ensures i <= m.start && IsWhole(text, marks, m) ==> i + 1 <= m.start
    ensures i < |text| ==> Between(text, marks, i + 1)
    ensures i == |text| ==> !(i <= m.start && IsWhole(text, marks, m))
  {}

  lemma {:induction false} RunsFromAre(text: string, marks: set<char>, i: nat, m: Mark)
    requires i <= |text| && Between(text, marks, i)
    ensures m in Runs(text, marks, i) <==> i <= m.start && IsWhole(text, marks, m)
    decreases |text| - i
  {
    hide IsRun, RunEnd, IsWhole, Between;
    if i == |text| {
      NoRun(text, marks, i, m);
    } else if text[i] in marks {
      FirstRun(text, marks, i, m);
      RunsFromAre(text, marks, RunEnd(text, text[i], i + 1), m);
    } else {
      NoRun(text, marks, i, m);
      RunsFromAre(text, marks, i + 1, m);
    }
  }

  /** The runs of a text are all its whole runs. */
  lemma RunsAre(text: string, marks: set<char>, m: Mark)
    ensures m in Runs(text, marks, 0) <==> IsWhole(text, marks, m)
  {
    hide Runs;
    RunsFromAre(text, marks, 0, m);
  }
}
