/** Which brackets make a link, said of what stands between them. */
module LinkPairs {
  import opened Options
  import opened Text
  import opened Markup

  /** A bracket that counts: outside every code span, and not escaped. */
  predicate Live(text: string, code: seq<Pair>, i: nat) {
    i < |text| && (text[i] == '[' || text[i] == ']') && !InCode(code, i) && !Escaped(text, i)
  }

  /** How many more brackets that count open than close between `a` and `b`. */
  function Open(text: string, code: seq<Pair>, a: nat, b: nat): int
    requires a <= b <= |text|
  {
    if a == b then 0
    else Open(text, code, a, b - 1) + (if !Live(text, code, b - 1) then 0 else if text[b - 1] == '[' then 1 else -1)
  }

  /** The `[` at `o` has not been closed before `i`. */
  ghost predicate StillOpen(text: string, code: seq<Pair>, o: nat, i: nat) {
    && o < i <= |text| && Live(text, code, o) && text[o] == '['
    && forall k | o < k <= i :: Open(text, code, o, k) >= 1
  }

  /** The `]` at `c` closes the `[` at `o`: between them every bracket that opens is closed, and none closes more. */
  ghost predicate Takes(text: string, code: seq<Pair>, o: nat, c: nat) {
    StillOpen(text, code, o, c) && Live(text, code, c) && text[c] == ']' && Open(text, code, o, c) == 1
  }

  /** A destination follows the bracket at `c` at once and ends at `e`. */
  ghost predicate Destination(text: string, c: nat, e: nat) {
    c + 2 <= e < |text| && text[c + 1] == '(' && text[e] == ')' && forall k | c + 2 <= k < e :: text[k] != ')'
  }

  /** The stack of the loop: the brackets still open, the innermost last. */
  ghost predicate Stack(text: string, code: seq<Pair>, i: nat, brackets: seq<nat>) {
    && i <= |text|
    && (forall j | 0 <= j < |brackets| :: StillOpen(text, code, brackets[j], i) && Open(text, code, brackets[j], i) == |brackets| - j)
    && (forall o: nat :: StillOpen(text, code, o, i) ==> o in brackets)
  }

  lemma OpenNext(text: string, code: seq<Pair>, o: nat, i: nat)
    requires o <= i < |text|
    ensures Open(text, code, o, i + 1)
         == Open(text, code, o, i) + (if !Live(text, code, i) then 0 else if text[i] == '[' then 1 else -1)
    ensures StillOpen(text, code, o, i + 1)
       <==> if o == i then Live(text, code, i) && text[i] == '[' else StillOpen(text, code, o, i) && Open(text, code, o, i + 1) >= 1
  {
    hide Live;
    if o == i { assert Open(text, code, o, o) == 0; }
  }

  lemma StackNext(text: string, code: seq<Pair>, i: nat, brackets: seq<nat>)
    requires i < |text| && Stack(text, code, i, brackets)
    ensures !Live(text, code, i) ==> Stack(text, code, i + 1, brackets)
    ensures Live(text, code, i) && text[i] == '[' ==> Stack(text, code, i + 1, brackets + [i])
    ensures Live(text, code, i) && text[i] == ']' ==> Stack(text, code, i + 1, if brackets == [] then [] else brackets[..|brackets| - 1])
  {
    hide Live, Open, StillOpen;
    forall o: nat | o <= i
      ensures Open(text, code, o, i + 1)
           == Open(text, code, o, i) + (if !Live(text, code, i) then 0 else if text[i] == '[' then 1 else -1)
      ensures StillOpen(text, code, o, i + 1)
         <==> if o == i then Live(text, code, i) && text[i] == '[' else StillOpen(text, code, o, i) && Open(text, code, o, i + 1) >= 1
    {
      OpenNext(text, code, o, i);
    }
    OpenNone(text, code, i);
    forall o: nat, k: nat | StillOpen(text, code, o, k)
      ensures o < k
    {
      OpenBefore(text, code, o, k);
    }
    if Live(text, code, i) && text[i] == ']' && brackets != [] {
      var popped := brackets[..|brackets| - 1];
      LiveBracket(text, code, i);
      forall o: nat | StillOpen(text, code, o, i + 1)
        ensures o in popped
      {
        assert o < i + 1 && StillOpen(text, code, o, i);
        var j :| 0 <= j < |brackets| && brackets[j] == o;
        assert popped[j] == o;
      }
    }
  }

  lemma OpenBefore(text: string, code: seq<Pair>, o: nat, k: nat)
    requires StillOpen(text, code, o, k)
    ensures o < k
  {}

  lemma OpenNone(text: string, code: seq<Pair>, i: nat)
    requires i <= |text|
    ensures Open(text, code, i, i) == 0
  {}

  /** A `]` takes the innermost bracket still open, and no other. */
  lemma TopTaken(text: string, code: seq<Pair>, i: nat, brackets: seq<nat>, o: nat)
    requires i < |text| && Stack(text, code, i, brackets) && Live(text, code, i) && text[i] == ']'
    ensures Takes(text, code, o, i) <==> brackets != [] && o == brackets[|brackets| - 1]
  {
    hide Live, Open, StillOpen;
  }

  lemma TakesOne(text: string, code: seq<Pair>, o: nat, o': nat, c: nat)
    requires Takes(text, code, o, c) && Takes(text, code, o', c)
    ensures o == o'
  {
    hide Live, Open, StillOpen;
    TakenInside(text, code, o, c);
    var brackets := StackAt(text, code, c);
    TopTaken(text, code, c, brackets, o);
    TopTaken(text, code, c, brackets, o');
  }

  lemma TakenInside(text: string, code: seq<Pair>, o: nat, c: nat)
    requires Takes(text, code, o, c)
    ensures o < c < |text|
  {}

  lemma {:induction false} StackAt(text: string, code: seq<Pair>, i: nat) returns (brackets: seq<nat>)
    requires i <= |text|
    ensures Stack(text, code, i, brackets)
  {
    hide Live, Open, Stack;
    if i == 0 {
      brackets := [];
      StackStart(text, code);
    } else {
      brackets := StackAt(text, code, i - 1);
      StackNext(text, code, i - 1, brackets);
      LiveBracket(text, code, i - 1);
      if Live(text, code, i - 1) {
        if text[i - 1] == '[' { brackets := brackets + [i - 1]; } else if brackets != [] { brackets := brackets[..|brackets| - 1]; }
      }
    }
  }

  lemma LiveBracket(text: string, code: seq<Pair>, i: nat)
    ensures Live(text, code, i) ==> i < |text| && (text[i] == '[' || text[i] == ']')
  {}

  lemma StackStart(text: string, code: seq<Pair>)
    ensures Stack(text, code, 0, [])
  {}

  lemma DestinationIs(text: string, c: nat, e: nat)
    requires c < |text|
    ensures Destination(text, c, e) <==> LinkEnd(text, c) == e
  {
    if c + 1 < |text| && text[c + 1] == '(' {
      forall k: nat
        ensures At(text, ")", k) <==> k < |text| && text[k] == ')'
      {
        if k < |text| { assert text[k..k + 1] == [text[k]]; }
      }
      if Destination(text, c, e) { FindIs(text, ")", c + 2, e); }
    }
  }

  /** The pair is a link: a `]` that closes a `[` and has a destination, the image mark with it. */
  ghost predicate IsLink(text: string, code: seq<Pair>, from: nat, p: Pair) {
    exists o: nat, c: nat, e: nat :: from <= c && Takes(text, code, o, c) && Destination(text, c, e) && p == Link(text, o, c, e)
  }

  lemma LinkHere(text: string, code: seq<Pair>, i: nat, brackets: seq<nat>, p: Pair)
    requires i < |text| && Stack(text, code, i, brackets)
    ensures IsLink(text, code, i, p)
       <==> IsLink(text, code, i + 1, p)
            || (Live(text, code, i) && text[i] == ']' && brackets != [] && LinkEnd(text, i) >= 0
                && p == Link(text, brackets[|brackets| - 1], i, LinkEnd(text, i)))
  {
    hide Live, Stack, Takes, Destination, Link, LinkEnd;
    if Live(text, code, i) && text[i] == ']' {
      forall o: nat
        ensures Takes(text, code, o, i) <==> brackets != [] && o == brackets[|brackets| - 1]
      {
        TopTaken(text, code, i, brackets, o);
      }
    } else {
      NotTaken(text, code, i);
    }
    forall e: nat
      ensures Destination(text, i, e) <==> LinkEnd(text, i) == e
    {
      DestinationIs(text, i, e);
    }
    if IsLink(text, code, i, p) && !IsLink(text, code, i + 1, p) {
      var o: nat, c: nat, e: nat :| i <= c && Takes(text, code, o, c) && Destination(text, c, e) && p == Link(text, o, c, e);
      assert c == i;
    }
  }

  lemma NotTaken(text: string, code: seq<Pair>, i: nat)
    requires i < |text| && !(Live(text, code, i) && text[i] == ']')
    ensures forall o: nat :: !Takes(text, code, o, i)
  {}

  lemma NoLinkLeft(text: string, code: seq<Pair>, p: Pair)
    ensures !IsLink(text, code, |text|, p)
  {
    hide Open, StillOpen;
  }

  lemma {:induction false} LinksFromAre(text: string, code: seq<Pair>, i: nat, brackets: seq<nat>, p: Pair)
    requires Stack(text, code, i, brackets) && i <= |text|
    ensures p in LinksFrom(text, code, i, brackets) <==> IsLink(text, code, i, p)
    decreases |text| - i
  {
    hide Stack, IsLink, Escaped, InCode, LinkEnd, Link;
    if i == |text| {
      NoLinkLeft(text, code, p);
    } else {
      StackNext(text, code, i, brackets);
      LinkHere(text, code, i, brackets, p);
      var rest := if !Live(text, code, i) then brackets else if text[i] == '[' then brackets + [i] else if brackets == [] then [] else brackets[..|brackets| - 1];
      LinksFromAre(text, code, i + 1, rest, p);
    }
  }

  /** The links of a text are the pairs of a `[` and the `]` that closes it with a destination right behind. */
  lemma LinksAre(text: string, code: seq<Pair>, p: Pair)
    ensures p in LinksFrom(text, code, 0, []) <==> IsLink(text, code, 0, p)
  {
    hide Stack, IsLink, LinksFrom;
    StackStart(text, code);
    LinksFromAre(text, code, 0, [], p);
  }
}
