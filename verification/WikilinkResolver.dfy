/** Where a wikilink of one engram page leads, looked up in the page's references and its neighbours. */
module WikilinkResolver {
  import opened Options
  import opened Text
  import opened Wikilinks

  datatype Reference = Reference(target: LinkTarget, resolved: bool, permalink: Option<string>)

  datatype Node = Node(domain: string, permalink: string, title: string)

  /** The page's own domain, the domain spellings when there are any, and the folding of a title. */
  datatype Page = Page(home: string, names: Option<map<string, string>>, lower: string -> string)

  datatype Resolution = Unresolved | Resolved(place: Node, fragment: Option<string>, words: string)

  // ----- keys

  function DomainOf(page: Page, domain: Option<string>): string {
    if domain.None? then page.home
    else if page.names.Some? && domain.value in page.names.value then page.names.value[domain.value]
    else domain.value
  }

  /** The text one target is looked up by. */
  function KeyOf(page: Page, target: LinkTarget): string {
    DomainOf(page, target.domain) + " " + page.lower(target.target)
  }

  /** The key of a neighbour under one of its names: its domain is a local name already, so no spelling moves it. */
  function NodeKey(page: Page, node: Node, name: string): string {
    node.domain + " " + page.lower(name)
  }

  /** Two keys are the same exactly when the domains and the folded texts are, for domains without a space. */
  lemma KeysApart(a: string, x: string, b: string, y: string)
    requires ' ' !in a && ' ' !in b
    ensures a + " " + x == b + " " + y <==> a == b && x == y
  {
    var s, t := a + " " + x, b + " " + y;
    IndexOfIs(s, ' ', |a|);
    IndexOfIs(t, ' ', |b|);
    assert a == s[..|a|] && b == t[..|b|];
    assert x == s[|a| + 1..] && y == t[|b| + 1..];
  }

  // ----- what the index and the graph say

  /** Some reference is looked up by the key. */
  ghost predicate Mentioned(page: Page, refs: seq<Reference>, key: string) {
    exists r :: r in refs && KeyOf(page, r.target) == key
  }

  /** Some reference with the key was resolved: one is enough. */
  ghost predicate Confirmed(page: Page, refs: seq<Reference>, key: string) {
    exists r :: r in refs && KeyOf(page, r.target) == key && r.resolved
  }

  /** The neighbour answers to the key, by its title or its permalink. */
  predicate Answers(page: Page, node: Node, key: string) {
    || (node.title != "" && NodeKey(page, node, node.title) == key)
    || (node.permalink != "" && NodeKey(page, node, node.permalink) == key)
  }

  /** The first of the first `n` neighbours that answers to the key. */
  function Placed(page: Page, nodes: seq<Node>, key: string, n: nat): Option<Node>
    requires n <= |nodes|
  {
    if n == 0 then None
    else if Placed(page, nodes, key, n - 1).Some? then Placed(page, nodes, key, n - 1)
    else if Answers(page, nodes[n - 1], key) then Some(nodes[n - 1])
    else None
  }

  function TitleAt(nodes: seq<Node>, domain: string, permalink: string): string {
    if nodes == [] then ""
    else if nodes[0].domain == domain && nodes[0].permalink == permalink then nodes[0].title
    else TitleAt(nodes[1..], domain, permalink)
  }

  /** The address the first reference with the key carries, on this page's domain. */
  function Addressed(page: Page, nodes: seq<Node>, refs: seq<Reference>, key: string, n: nat): Option<Node>
    requires n <= |refs|
  {
    if n == 0 then None
    else if Addressed(page, nodes, refs, key, n - 1).Some? then Addressed(page, nodes, refs, key, n - 1)
    else
      var r := refs[n - 1];
      if KeyOf(page, r.target) == key && r.permalink.Some?
      then Some(Node(page.home, r.permalink.value, TitleAt(nodes, page.home, r.permalink.value)))
      else None
  }

  /** Where the key leads: a neighbour before an address. */
  function Located(page: Page, nodes: seq<Node>, refs: seq<Reference>, key: string): Option<Node> {
    if Placed(page, nodes, key, |nodes|).Some? then Placed(page, nodes, key, |nodes|)
    else Addressed(page, nodes, refs, key, |refs|)
  }

  lemma {:induction false} FirstAnswers(page: Page, nodes: seq<Node>, key: string, n: nat)
    requires n <= |nodes|
    ensures match Placed(page, nodes, key, n)
            case None => forall i | 0 <= i < n :: !Answers(page, nodes[i], key)
            case Some(node) => exists i :: 0 <= i < n && nodes[i] == node && Answers(page, nodes[i], key)
                                 && forall j | 0 <= j < i :: !Answers(page, nodes[j], key)
  {
    hide Answers;
    if n > 0 { FirstAnswers(page, nodes, key, n - 1); }
  }

  // ----- the answer

  function Targets(page: Page, inner: string): seq<LinkTarget> {
    Readings(inner, if page.names.None? then None else Some(page.names.value.Keys))
  }

  /** The verdict of the first reading the index has anything to say about. */
  ghost function Verdict(page: Page, refs: seq<Reference>, targets: seq<LinkTarget>): Option<bool> {
    if targets == [] then None
    else if Mentioned(page, refs, KeyOf(page, targets[0])) then Some(Confirmed(page, refs, KeyOf(page, targets[0])))
    else Verdict(page, refs, targets[1..])
  }

  const HEADING_MARK := " \U{203A} "

  function Label(target: LinkTarget, place: Node, alias: Option<string>): string {
    var shown := if place.title == "" then target.target else place.title;
    if alias.Some? then alias.value
    else if target.fragment.None? then shown
    else shown + HEADING_MARK + target.fragment.value
  }

  /** The first reading that leads somewhere. */
  function Place(page: Page, nodes: seq<Node>, refs: seq<Reference>, targets: seq<LinkTarget>, alias: Option<string>): Option<Resolution> {
    if targets == [] then None
    else
      var place := Located(page, nodes, refs, KeyOf(page, targets[0]));
      if place.Some? then Some(Resolved(place.value, targets[0].fragment, Label(targets[0], place.value, alias)))
      else Place(page, nodes, refs, targets[1..], alias)
  }

  /** What a wikilink resolves to, `None` for text that is no link or not placed yet. */
  ghost function Answer(page: Page, nodes: seq<Node>, refs: seq<Reference>, inner: string): Option<Resolution> {
    var parsed, targets := ParseWikiTarget(inner), Targets(page, inner);
    if parsed.target == "" then None
    else
      match Verdict(page, refs, targets)
      case None => None
      case Some(false) => Some(Unresolved)
      case Some(true) => Place(page, nodes, refs, targets, parsed.alias)
  }

  // ----- the tables

  /** What the index made of each reference: resolved anywhere wins. */
  method ReadIndex(page: Page, refs: seq<Reference>) returns (parsed: map<string, bool>)
    ensures forall key :: key in parsed <==> Mentioned(page, refs, key)
    ensures forall key | key in parsed :: parsed[key] <==> Confirmed(page, refs, key)
  {
    hide KeyOf, Mentioned, Confirmed;
    parsed := map[];
    NothingSaid(page, refs);
    for k := 0 to |refs|
      invariant forall key :: key in parsed <==> Mentioned(page, refs[..k], key)
      invariant forall key | key in parsed :: parsed[key] <==> Confirmed(page, refs[..k], key)
    {
      NextSaid(page, refs, k);
      var key := KeyOf(page, refs[k].target);
      parsed := parsed[key := (key in parsed && parsed[key]) || refs[k].resolved];
    }
    assert refs[..|refs|] == refs;
  }

  /** Where each key leads: the neighbours by title and permalink, then the references that carry an address. */
  method Locate(page: Page, nodes: seq<Node>, refs: seq<Reference>) returns (located: map<string, Node>)
    ensures forall key :: key in located <==> Located(page, nodes, refs, key).Some?
    ensures forall key | key in located :: Some(located[key]) == Located(page, nodes, refs, key)
  {
    hide KeyOf, Answers, Placed, LocatedBy, Located, NodeKey, TitleAt;
    located := map[];
    NothingPlaced(page, nodes);
    for k := 0 to |nodes|
      invariant forall key :: key in located <==> Placed(page, nodes, key, k).Some?
      invariant forall key | key in located :: Some(located[key]) == Placed(page, nodes, key, k)
    {
      NextPlaced(page, nodes, k);
      var node := nodes[k];
      var byTitle, byPermalink := NodeKey(page, node, node.title), NodeKey(page, node, node.permalink);
      if node.title != "" && byTitle !in located { located := located[byTitle := node]; }
      if node.permalink != "" && byPermalink !in located { located := located[byPermalink := node]; }
    }
    AddressStart(page, nodes, refs);
    for k := 0 to |refs|
      invariant forall key :: key in located <==> LocatedBy(page, nodes, refs, key, k).Some?
      invariant forall key | key in located :: Some(located[key]) == LocatedBy(page, nodes, refs, key, k)
    {
      NextAddressed(page, nodes, refs, k);
      var r := refs[k];
      var key := KeyOf(page, r.target);
      if r.permalink.Some? && key !in located {
        located := located[key := Node(page.home, r.permalink.value, TitleAt(nodes, page.home, r.permalink.value))];
      }
    }
    LocatedAll(page, nodes, refs);
  }

  class Resolver {
    var page: Page
    var parsed: map<string, bool>
    var located: map<string, Node>

    ghost predicate Holds(nodes: seq<Node>, refs: seq<Reference>)
      reads this
    {
      && (forall key :: key in parsed <==> Mentioned(page, refs, key))
      && (forall key | key in parsed :: parsed[key] <==> Confirmed(page, refs, key))
      && (forall key :: key in located <==> Located(page, nodes, refs, key).Some?)
      && (forall key | key in located :: Some(located[key]) == Located(page, nodes, refs, key))
    }

    constructor (page: Page, nodes: seq<Node>, refs: seq<Reference>)
      ensures this.page == page && Holds(nodes, refs)
    {
      this.page := page;
      parsed := map[];
      located := map[];
      new;
      hide KeyOf, Located, Mentioned, Confirmed;
      parsed := ReadIndex(page, refs);
      located := Locate(page, nodes, refs);
    }

    /** Resolve one bracket text. */
    method Resolve(inner: string, ghost nodes: seq<Node>, ghost refs: seq<Reference>) returns (r: Option<Resolution>)
      requires Holds(nodes, refs)
      ensures r == Answer(page, nodes, refs, inner)
    {
      hide ParseWikiTarget, Targets, KeyOf, Located, Mentioned, Confirmed, Label;
      var targets, written := Targets(page, inner), ParseWikiTarget(inner);
      if written.target == "" { return None; }
      var verdict: Option<bool> := None;
      var i := 0;
      assert targets[0..] == targets;
      while i < |targets| && verdict.None?
        invariant i <= |targets|
        invariant verdict.None? ==> Verdict(page, refs, targets) == Verdict(page, refs, targets[i..])
        invariant verdict.Some? ==> Verdict(page, refs, targets) == verdict
      {
        var key := KeyOf(page, targets[i]);
        assert targets[i..][1..] == targets[i + 1..];
        if key in parsed { verdict := Some(parsed[key]); }
        i := i + 1;
      }
      if verdict.None? { return None; }
      if !verdict.value { return Some(Unresolved); }
      for j := 0 to |targets|
        invariant Place(page, nodes, refs, targets, written.alias) == Place(page, nodes, refs, targets[j..], written.alias)
      {
        var key := KeyOf(page, targets[j]);
        assert targets[j..][1..] == targets[j + 1..];
        if key in located {
          var place := located[key];
          return Some(Resolved(place, targets[j].fragment, Label(targets[j], place, written.alias)));
        }
      }
      return None;
    }
  }

  function LocatedBy(page: Page, nodes: seq<Node>, refs: seq<Reference>, key: string, k: nat): Option<Node>
    requires k <= |refs|
  {
    if Placed(page, nodes, key, |nodes|).Some? then Placed(page, nodes, key, |nodes|) else Addressed(page, nodes, refs, key, k)
  }

  lemma NothingSaid(page: Page, refs: seq<Reference>)
    ensures forall key :: !Mentioned(page, refs[..0], key)
  {}

  lemma NothingPlaced(page: Page, nodes: seq<Node>)
    ensures forall key :: Placed(page, nodes, key, 0).None?
  {}

  lemma NextSaid(page: Page, refs: seq<Reference>, k: nat)
    requires k < |refs|
    ensures forall key :: Mentioned(page, refs[..k + 1], key) <==> Mentioned(page, refs[..k], key) || KeyOf(page, refs[k].target) == key
    ensures forall key :: Confirmed(page, refs[..k + 1], key)
                     <==> Confirmed(page, refs[..k], key) || (KeyOf(page, refs[k].target) == key && refs[k].resolved)
    ensures forall key :: Confirmed(page, refs[..k], key) ==> Mentioned(page, refs[..k], key)
  {
    hide KeyOf;
    assert refs[..k + 1] == refs[..k] + [refs[k]];
    var before, after := refs[..k], refs[..k + 1];
    assert forall r :: r in after <==> r in before || r == refs[k];
    assert refs[k] in after;
    forall key
      ensures Mentioned(page, after, key) <==> Mentioned(page, before, key) || KeyOf(page, refs[k].target) == key
      ensures Confirmed(page, after, key) <==> Confirmed(page, before, key) || (KeyOf(page, refs[k].target) == key && refs[k].resolved)
    {
      if r :| r in before && KeyOf(page, r.target) == key { assert r in after; }
      if r :| r in before && KeyOf(page, r.target) == key && r.resolved { assert r in after; }
    }
  }

  lemma NextPlaced(page: Page, nodes: seq<Node>, k: nat)
    requires k < |nodes|
    ensures forall key :: Placed(page, nodes, key, k + 1)
                       == if Placed(page, nodes, key, k).Some? then Placed(page, nodes, key, k)
                          else if Answers(page, nodes[k], key) then Some(nodes[k]) else None
    ensures var node := nodes[k];
            forall key :: Answers(page, node, key) <==>
              || (node.title != "" && NodeKey(page, node, node.title) == key)
              || (node.permalink != "" && NodeKey(page, node, node.permalink) == key)
  {
    hide NodeKey;
  }

  lemma AddressStart(page: Page, nodes: seq<Node>, refs: seq<Reference>)
    ensures forall key :: LocatedBy(page, nodes, refs, key, 0) == Placed(page, nodes, key, |nodes|)
  {}

  lemma NextAddressed(page: Page, nodes: seq<Node>, refs: seq<Reference>, k: nat)
    requires k < |refs|
    ensures var r := refs[k];
            forall key :: LocatedBy(page, nodes, refs, key, k + 1)
                       == if LocatedBy(page, nodes, refs, key, k).Some? then LocatedBy(page, nodes, refs, key, k)
                          else if KeyOf(page, r.target) == key && r.permalink.Some?
                               then Some(Node(page.home, r.permalink.value, TitleAt(nodes, page.home, r.permalink.value)))
                          else None
  {
    hide KeyOf, Placed, TitleAt;
  }

  lemma LocatedAll(page: Page, nodes: seq<Node>, refs: seq<Reference>)
    ensures forall key :: LocatedBy(page, nodes, refs, key, |refs|) == Located(page, nodes, refs, key)
  {}

  // ----- what the answer depends on

  /** The order and the repetition of the references do not matter to a verdict. */
  lemma {:induction false} VerdictIgnoresOrder(page: Page, a: seq<Reference>, b: seq<Reference>, targets: seq<LinkTarget>)
    requires forall r :: r in a <==> r in b
    ensures Verdict(page, a, targets) == Verdict(page, b, targets)
    decreases |targets|
  {
    hide KeyOf;
    if targets != [] {
      var key := KeyOf(page, targets[0]);
      assert Mentioned(page, a, key) <==> Mentioned(page, b, key);
      assert Confirmed(page, a, key) <==> Confirmed(page, b, key);
      VerdictIgnoresOrder(page, a, b, targets[1..]);
    }
  }

  /** A bracket text none of whose readings is a reference of the page is never drawn as a link. */
  lemma {:induction false} OnlyReferencesLink(page: Page, refs: seq<Reference>, targets: seq<LinkTarget>)
    ensures Verdict(page, refs, targets).Some? <==> exists t :: t in targets && Mentioned(page, refs, KeyOf(page, t))
    decreases |targets|
  {
    hide KeyOf, Mentioned, Confirmed;
    if targets != [] {
      OnlyReferencesLink(page, refs, targets[1..]);
      assert forall t :: t in targets <==> t == targets[0] || t in targets[1..];
    }
  }

  /** A target written back from its parse resolves to the same answer, unless a fallback is tried and its title has a blank beside the colon. */
  lemma PrintedAnswersTheSame(page: Page, nodes: seq<Node>, refs: seq<Reference>, inner: string)
    requires var domain := ParseWikiTarget(inner).domain;
             || domain.None? || page.names.None? || domain.value in page.names.value
             || TightColon(Title(SplitAlias(inner).0))
    ensures Answer(page, nodes, refs, InnerOf(ParseWikiTarget(inner))) == Answer(page, nodes, refs, inner)
  {
    hide ParseWikiTarget, Readings, InnerOf, TightColon, Title, SplitAlias, Verdict, Place;
    ParsePrintStable(inner);
    PrintedReadings(inner, if page.names.None? then None else Some(page.names.value.Keys));
  }
}
