/** What the readings of a bracket text are, said of the text, and what they answer. */
module WikilinkReadings {
  import opened Options
  import opened Text
  import opened Wikilinks
  import opened WikilinkResolver

  // ----- how a bracket text falls apart

  /** The text before the first bar, trimmed, and the words after it when there are any. */
  ghost predicate Barred(inner: string, part: string, alias: Option<string>) {
    || ('|' !in inner && part == Trim(inner) && alias == None)
    || exists x, y ::
         && inner == x + "|" + y && '|' !in x && part == Trim(x)
         && alias == if Trim(y) == "" then None else Some(Trim(y))
  }

  /** A heading is split off at the first hash, when something stands before it. */
  ghost predicate Splits(part: string, before: string, heading: string) {
    part == before + "#" + heading && '#' !in before && Trim(before) != ""
  }

  /** A domain and a target around the first colon, neither blank, the domain one word. */
  ghost predicate Prefixed(s: string, domain: string, target: string) {
    exists p, q ::
      && s == p + ":" + q && ':' !in p && domain == Trim(p) && target == Trim(q)
      && domain != "" && target != "" && !HasSpace(domain)
  }

  /** The text names a domain and a target, or is a target as it stands. */
  ghost predicate ReadsAs(s: string, link: (Option<string>, string)) {
    match link.0
    case Some(domain) => Prefixed(s, domain, link.1)
    case None => link.1 == s && forall domain, target :: !Prefixed(s, domain, target)
  }

  lemma PrefixedIs(s: string, domain: string, target: string)
    ensures Prefixed(s, domain, target) <==> ReadPrefix(s) == (Some(domain), target)
  {
    hide Trim;
    if p, q :| s == p + ":" + q && ':' !in p && domain == Trim(p) && target == Trim(q) && domain != "" && target != "" && !HasSpace(domain) {
      PrefixAt(p, q);
    }
    if ReadPrefix(s) == (Some(domain), target) { var p, q := PrefixSplit(s); }
  }

  /** Every text reads in exactly one way. */
  lemma ReadsAsIs(s: string, link: (Option<string>, string))
    ensures ReadsAs(s, link) <==> link == ReadPrefix(s)
  {
    hide ReadPrefix, Prefixed;
    forall domain, target
      ensures Prefixed(s, domain, target) <==> ReadPrefix(s) == (Some(domain), target)
    {
      PrefixedIs(s, domain, target);
    }
    PrefixNone(s);
  }

  lemma PrefixNone(s: string)
    ensures ReadPrefix(s).0.None? ==> ReadPrefix(s) == (None, s)
  {}

  lemma SplitsIs(part: string, before: string, heading: string)
    ensures Splits(part, before, heading) <==> SplitFragment(part) == (before, Some(heading))
  {
    hide Trim;
    if Splits(part, before, heading) {
      assert part[..|before|] == before && part[|before| + 1..] == heading;
      IndexOfIs(part, '#', |before|);
    }
    if SplitFragment(part) == (before, Some(heading)) {
      assert part == before + "#" + heading;
    }
  }

  lemma BarInside(inner: string, x: string, y: string)
    ensures inner == x + "|" + y ==> '|' in inner
  {
    assert (x + "|" + y)[|x|] == '|';
  }

  lemma BarredIs(inner: string, part: string, alias: Option<string>)
    ensures Barred(inner, part, alias) <==> SplitAlias(inner) == (part, alias)
  {
    hide Trim;
    var bar := IndexOf(inner, '|');
    forall x, y
      ensures inner == x + "|" + y ==> '|' in inner
    {
      BarInside(inner, x, y);
    }
    if '|' !in inner {
      IndexOfNone(inner, '|');
    } else {
      assert bar >= 0;
      assert inner == inner[..bar] + "|" + inner[bar + 1..];
      forall x, y | inner == x + "|" + y && '|' !in x
        ensures x == inner[..bar] && y == inner[bar + 1..]
      {
        assert inner[..|x|] == x && inner[|x| + 1..] == y;
        IndexOfIs(inner, '|', |x|);
      }
    }
  }

  // ----- the readings

  /** What the resolver is asked: a domain, a target and a heading. */
  datatype Question = Question(domain: Option<string>, target: string, heading: Option<string>)

  function Asked(targets: seq<LinkTarget>): seq<Question> {
    if targets == [] then []
    else [Question(targets[0].domain, targets[0].target, targets[0].fragment)] + Asked(targets[1..])
  }

  function HeadingOf(text: string): Option<string> {
    if Trim(text) == "" then None else Some(Trim(text))
  }

  /** The prefix is in no listing of the caller's. */
  predicate Unlisted(domain: Option<string>, known: Option<set<string>>) {
    domain.Some? && known.Some? && domain.value !in known.value
  }

  /**
   * A text with a heading is asked with its hash kept first, exactly when
   * both readings name one domain; then as the target before the heading;
   * then, exactly when the prefix is in no listing, with all before the hash
   * as a title.
   */
  lemma SplitReadings(inner: string, known: Option<set<string>>, part: string, alias: Option<string>, before: string, heading: string,
                      link: (Option<string>, string), unsplit: (Option<string>, string))
    requires Barred(inner, part, alias) && Splits(part, before, heading) && ReadsAs(Trim(before), link) && ReadsAs(part, unsplit)
    ensures ParseWikiTarget(inner).alias == alias && ParseWikiTarget(inner).target != ""
    ensures Asked(Readings(inner, known))
         == (if unsplit.0 == link.0 then [Question(link.0, unsplit.1, None)] else [])
            + [Question(link.0, link.1, HeadingOf(heading))]
            + (if Unlisted(link.0, known) then [Question(None, Trim(before), HeadingOf(heading))] else [])
  {
    hide Trim, ReadPrefix, Barred, SplitAlias, SplitFragment, Asked;
    BarredIs(inner, part, alias);
    SplitsIs(part, before, heading);
    ReadsAsIs(Trim(before), link);
    ReadsAsIs(part, unsplit);
    TargetSaid(Trim(before));
    var t := ParseWikiTarget(inner);
    assert t == SplitTarget(link, unsplit, Trim(heading)).(alias := alias);
    AskedJoin([LinkTarget(t.domain, unsplit.1, None, None, None)], [t]);
    AskedOne(LinkTarget(t.domain, unsplit.1, None, None, None));
    AskedOne(t);
    var fallback := LinkTarget(None, Trim(before), t.fragment, None, None);
    AskedOne(fallback);
    AskedJoin([t], [fallback]);
    AskedJoin([LinkTarget(t.domain, unsplit.1, None, None, None)], [t, fallback]);
    assert [t] + [fallback] == [t, fallback];
    assert [] + [t] == [t] && [] + [t, fallback] == [t, fallback];
  }

  /** A text without a heading is asked as it reads, and then, exactly when its prefix is in no listing, whole. */
  lemma WholeReadings(inner: string, known: Option<set<string>>, part: string, alias: Option<string>, link: (Option<string>, string))
    requires Barred(inner, part, alias) && ReadsAs(part, link) && forall before, heading :: !Splits(part, before, heading)
    ensures ParseWikiTarget(inner).alias == alias && (ParseWikiTarget(inner).target != "" <==> part != "")
    ensures Asked(Readings(inner, known))
         == [Question(link.0, link.1, None)] + (if Unlisted(link.0, known) then [Question(None, part, None)] else [])
  {
    hide Trim, ReadPrefix, Barred, SplitAlias, SplitFragment, Asked, Splits;
    BarredIs(inner, part, alias);
    AliasPart(inner);
    NeverSplit(part);
    ReadsAsIs(part, link);
    if part != "" { TargetSaid(part); }
    TrimOfTrimmed(part);
    var t := ParseWikiTarget(inner);
    assert t == UnsplitTarget(link).(alias := alias);
    AskedOne(t);
    var fallback := LinkTarget(None, part, None, None, None);
    AskedOne(fallback);
    AskedJoin([t], [fallback]);
    assert [t] + [fallback] == [t, fallback];
    assert [] + [t] == [t] && [] + [t, fallback] == [t, fallback];
    EmptyReads(part);
  }

  lemma NeverSplit(part: string)
    requires forall before, heading :: !Splits(part, before, heading)
    ensures SplitFragment(part) == (part, None)
  {
    hide Splits;
    if SplitFragment(part).1.Some? { SplitsIs(part, SplitFragment(part).0, SplitFragment(part).1.value); }
  }

  lemma EmptyReads(part: string)
    ensures part == "" ==> ReadPrefix(part) == (None, "")
  {}

  lemma TargetSaid(s: string)
    requires s != ""
    ensures ReadPrefix(s).1 != ""
  {
    hide Trim;
  }

  lemma AskedOne(t: LinkTarget)
    ensures Asked([t]) == [Question(t.domain, t.target, t.fragment)]
  {
    assert [t][1..] == [];
  }

  lemma {:induction false} AskedJoin(a: seq<LinkTarget>, b: seq<LinkTarget>)
    ensures Asked(a + b) == Asked(a) + Asked(b)
  {
    if a == [] {
      assert a + b == b;
    } else {
      assert (a + b)[1..] == a[1..] + b;
      AskedJoin(a[1..], b);
    }
  }

  /** Every bracket text falls apart in one of the two ways. */
  lemma EveryText(inner: string)
    returns (part: string, alias: Option<string>, split: Option<(string, string)>, link: (Option<string>, string), unsplit: (Option<string>, string))
    ensures Barred(inner, part, alias) && ReadsAs(part, unsplit)
    ensures split.Some? ==> Splits(part, split.value.0, split.value.1) && ReadsAs(Trim(split.value.0), link)
    ensures split.None? ==> link == unsplit && forall before, heading :: !Splits(part, before, heading)
  {
    hide Trim, ReadPrefix, Barred, SplitAlias, SplitFragment, ReadsAs, Splits;
    part, alias := SplitAlias(inner).0, SplitAlias(inner).1;
    BarredIs(inner, part, alias);
    unsplit := ReadPrefix(part);
    ReadsAsIs(part, unsplit);
    link := unsplit;
    split := None;
    forall before, heading
      ensures Splits(part, before, heading) <==> SplitFragment(part) == (before, Some(heading))
    {
      SplitsIs(part, before, heading);
    }
    if SplitFragment(part).1.Some? {
      split := Some((SplitFragment(part).0, SplitFragment(part).1.value));
      link := ReadPrefix(Trim(split.value.0));
      ReadsAsIs(Trim(split.value.0), link);
    }
  }

  // ----- what they answer

  function Known(page: Page): Option<set<string>> {
    if page.names.None? then None else Some(page.names.value.Keys)
  }

  /** The key a question is looked up by. */
  function KeyAsked(page: Page, q: Question): string {
    KeyOf(page, LinkTarget(q.domain, q.target, None, None, None))
  }

  /** The verdict of the first question the page mentions. */
  lemma {:induction false} VerdictOfAsked(page: Page, refs: seq<Reference>, targets: seq<LinkTarget>, n: nat)
    requires n < |Asked(targets)| == |targets| && Mentioned(page, refs, KeyAsked(page, Asked(targets)[n]))
    requires forall k | 0 <= k < n :: !Mentioned(page, refs, KeyAsked(page, Asked(targets)[k]))
    ensures Verdict(page, refs, targets) == Some(Confirmed(page, refs, KeyAsked(page, Asked(targets)[n])))
    decreases n
  {
    hide Mentioned, Confirmed, DomainOf;
    if n > 0 {
      assert !Mentioned(page, refs, KeyAsked(page, Asked(targets)[0]));
      forall k | 0 <= k < n - 1
        ensures Asked(targets[1..])[k] == Asked(targets)[k + 1]
      {}
      VerdictOfAsked(page, refs, targets[1..], n - 1);
    }
  }

  lemma {:induction false} AskedAll(targets: seq<LinkTarget>)
    ensures |Asked(targets)| == |targets|
    ensures forall k | 0 <= k < |targets| :: Asked(targets)[k] == Question(targets[k].domain, targets[k].target, targets[k].fragment)
  {
    if targets != [] { AskedAll(targets[1..]); }
  }

  /** A page that mentions the whole text, hash and all, takes its verdict, whatever the split says; a confirmed one that is placed opens there, without a heading. */
  lemma WholeTextWins(page: Page, nodes: seq<Node>, refs: seq<Reference>, inner: string, part: string, alias: Option<string>,
                      before: string, heading: string, link: (Option<string>, string), unsplit: (Option<string>, string))
    requires Barred(inner, part, alias) && Splits(part, before, heading) && ReadsAs(Trim(before), link) && ReadsAs(part, unsplit)
    requires unsplit.0 == link.0 && Mentioned(page, refs, KeyAsked(page, Question(unsplit.0, unsplit.1, None)))
    ensures var key := KeyAsked(page, Question(unsplit.0, unsplit.1, None));
            var answer := Answer(page, nodes, refs, inner);
            && (!Confirmed(page, refs, key) ==> answer == Some(Unresolved))
            && (Confirmed(page, refs, key) && Located(page, nodes, refs, key).Some? ==>
                  && answer.Some? && answer.value.Resolved?
                  && answer.value.place == Located(page, nodes, refs, key).value && answer.value.fragment == None)
  {
    hide Trim, Barred, Splits, ReadsAs, Readings, ParseWikiTarget, Mentioned, Confirmed, Located, DomainOf, Label;
    SplitReadings(inner, Known(page), part, alias, before, heading, link, unsplit);
    var targets := Targets(page, inner);
    AskedAll(targets);
    assert Asked(targets)[0] == Question(unsplit.0, unsplit.1, None);
    VerdictOfAsked(page, refs, targets, 0);
  }

  /** When the page does not mention the whole text, or there is none to ask, the split decides; the title is asked last. */
  lemma SplitDecides(page: Page, refs: seq<Reference>, inner: string, part: string, alias: Option<string>,
                     before: string, heading: string, link: (Option<string>, string), unsplit: (Option<string>, string))
    requires Barred(inner, part, alias) && Splits(part, before, heading) && ReadsAs(Trim(before), link) && ReadsAs(part, unsplit)
    requires unsplit.0 == link.0 ==> !Mentioned(page, refs, KeyAsked(page, Question(unsplit.0, unsplit.1, None)))
    ensures var key, title := KeyAsked(page, Question(link.0, link.1, None)), KeyAsked(page, Question(None, Trim(before), None));
            Verdict(page, refs, Targets(page, inner))
            == if Mentioned(page, refs, key) then Some(Confirmed(page, refs, key))
               else if Unlisted(link.0, Known(page)) && Mentioned(page, refs, title) then Some(Confirmed(page, refs, title))
               else None
  {
    hide Trim, Barred, Splits, ReadsAs, Readings, ParseWikiTarget, Mentioned, Confirmed, Located, DomainOf, Verdict;
    SplitReadings(inner, Known(page), part, alias, before, heading, link, unsplit);
    var targets := Targets(page, inner);
    AskedAll(targets);
    var n := if unsplit.0 == link.0 then 1 else 0;
    SameKey(page, link.0, link.1, HeadingOf(heading));
    SameKey(page, None, Trim(before), HeadingOf(heading));
    if Mentioned(page, refs, KeyAsked(page, Question(link.0, link.1, None))) {
      VerdictOfAsked(page, refs, targets, n);
    } else if Unlisted(link.0, Known(page)) && Mentioned(page, refs, KeyAsked(page, Question(None, Trim(before), None))) {
      VerdictOfAsked(page, refs, targets, n + 1);
    } else {
      OnlyReferencesLink(page, refs, targets);
      forall t | t in targets
        ensures !Mentioned(page, refs, KeyOf(page, t))
      {
        var k :| 0 <= k < |targets| && targets[k] == t;
        assert KeyOf(page, t) == KeyAsked(page, Asked(targets)[k]);
      }
    }
  }

  lemma SameKey(page: Page, domain: Option<string>, target: string, heading: Option<string>)
    ensures KeyAsked(page, Question(domain, target, heading)) == KeyAsked(page, Question(domain, target, None))
  {}

  // ----- the words of a link

  lemma {:induction false} PlaceWords(page: Page, nodes: seq<Node>, refs: seq<Reference>, targets: seq<LinkTarget>, alias: Option<string>) returns (k: nat)
    requires Place(page, nodes, refs, targets, alias).Some?
    ensures k < |targets| && Place(page, nodes, refs, targets, alias).value.Resolved?
    ensures var r := Place(page, nodes, refs, targets, alias).value;
            && Located(page, nodes, refs, KeyOf(page, targets[k])) == Some(r.place) && r.fragment == targets[k].fragment
            && (forall j | 0 <= j < k :: Located(page, nodes, refs, KeyOf(page, targets[j])).None?)
            && r.words == Label(targets[k], r.place, alias)
  {
    hide Located, KeyOf, Label;
    if Located(page, nodes, refs, KeyOf(page, targets[0])).Some? {
      k := 0;
    } else {
      k := PlaceWords(page, nodes, refs, targets[1..], alias);
      k := k + 1;
    }
  }

  /** The words after the bar win over every title; without them a link reads as the title of the page it leads to, else as its target, with the heading behind. */
  lemma WordsShown(page: Page, nodes: seq<Node>, refs: seq<Reference>, inner: string, part: string, alias: Option<string>) returns (q: Question)
    requires Barred(inner, part, alias)
    requires Answer(page, nodes, refs, inner).Some? && Answer(page, nodes, refs, inner).value.Resolved?
    ensures q in Asked(Targets(page, inner))
    ensures var r := Answer(page, nodes, refs, inner).value;
            && Located(page, nodes, refs, KeyAsked(page, q)) == Some(r.place) && r.fragment == q.heading
            && (alias.Some? ==> r.words == alias.value)
            && (alias.None? ==> var shown := if r.place.title == "" then q.target else r.place.title;
                                r.words == if q.heading.None? then shown else shown + " \U{203A} " + q.heading.value)
  {
    hide Located, Trim, Readings, Barred, Place, Mentioned, Confirmed, SplitAlias, ParsePart, DomainOf;
    BarredIs(inner, part, alias);
    var targets := Targets(page, inner);
    var k := PlaceWords(page, nodes, refs, targets, alias);
    AskedAll(targets);
    q := Asked(targets)[k];
  }

  // ----- spellings of one domain

  /** The domain a question names: the page's own, or the local name a spelling is listed under. */
  ghost predicate Names(page: Page, domain: Option<string>, local: string) {
    match domain
    case None => local == page.home
    case Some(spelling) => if page.names.Some? && spelling in page.names.value then page.names.value[spelling] == local else local == spelling
  }

  /** Questions that name one domain and fold to one text are looked up alike, and only those, when no domain has a space. */
  lemma AskedAlike(page: Page, a: Question, b: Question, x: string, y: string)
    requires Names(page, a.domain, x) && Names(page, b.domain, y) && ' ' !in x && ' ' !in y
    ensures KeyAsked(page, a) == KeyAsked(page, b) <==> x == y && page.lower(a.target) == page.lower(b.target)
  {
    KeysApart(x, page.lower(a.target), y, page.lower(b.target));
  }
}
