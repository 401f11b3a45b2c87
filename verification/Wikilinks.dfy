/**
 * The bracket grammar of a wikilink: `domain:target#heading|alias`, its
 * parser, its printer and the readings a resolver tries.
 */
module Wikilinks {
  import opened Options
  import opened Text

  datatype LinkTarget = LinkTarget(
    domain: Option<string>,
    target: string,
    fragment: Option<string>,
    whole: Option<string>,
    alias: Option<string>)

  function SplitAlias(inner: string): (string, Option<string>) {
    var bar := IndexOf(inner, '|');
    if bar < 0 then (Trim(inner), None)
    else
      var alias := Trim(inner[bar + 1..]);
      (Trim(inner[..bar]), if alias == "" then None else Some(alias))
  }

  function SplitFragment(part: string): (string, Option<string>) {
    var hash := IndexOf(part, '#');
    if hash < 0 || Trim(part[..hash]) == "" then (part, None)
    else (part[..hash], Some(part[hash + 1..]))
  }

  predicate HasSpace(s: string) {
    exists i | 0 <= i < |s| :: IsSpace(s[i])
  }

  function ReadPrefix(part: string): (Option<string>, string) {
    var colon := IndexOf(part, ':');
    if colon >= 0 then
      var prefix := Trim(part[..colon]);
      var after := Trim(part[colon + 1..]);
      if prefix != "" && after != "" && !HasSpace(prefix) then (Some(prefix), after)
      else (None, part)
    else (None, part)
  }

  /** The parse of a target part, its alias already cut off. */
  function ParsePart(part: string): LinkTarget {
    var (before, fragment) := SplitFragment(part);
    match fragment
    case None => UnsplitTarget(ReadPrefix(part))
    case Some(text) => SplitTarget(ReadPrefix(Trim(before)), ReadPrefix(part), Trim(text))
  }

  function UnsplitTarget(link: (Option<string>, string)): LinkTarget {
    LinkTarget(link.0, link.1, None, None, None)
  }

  /** The target of a part with a `#` split off: `unsplit` reads the part with its `#` kept. */
  function SplitTarget(link: (Option<string>, string), unsplit: (Option<string>, string), heading: string): LinkTarget {
    LinkTarget(
      link.0, link.1,
      if heading == "" then None else Some(heading),
      if unsplit.0 == link.0 then Some(unsplit.1) else None,
      None)
  }

  function ParseWikiTarget(inner: string): LinkTarget {
    var (part, alias) := SplitAlias(inner);
    ParsePart(part).(alias := alias)
  }

  /** The target as written, its alias left off. */
  function PrintPart(t: LinkTarget): string {
    var base :=
      if t.whole.Some? then t.whole.value
      else if t.fragment.Some? then t.target + "#" + t.fragment.value
      else t.target;
    if t.domain.None? then base else t.domain.value + ":" + base
  }

  function InnerOf(t: LinkTarget): string {
    if t.alias.None? then PrintPart(t) else PrintPart(t) + "|" + t.alias.value
  }

  // ----- where a part splits

  /** What the first colon of a text says about its prefix. */
  lemma PrefixAt(p: string, q: string)
    requires ':' !in p
    ensures ReadPrefix(p + ":" + q)
         == if Trim(p) != "" && Trim(q) != "" && !HasSpace(Trim(p)) then (Some(Trim(p)), Trim(q))
            else (None, p + ":" + q)
  {
    var s := p + ":" + q;
    assert s[..|p|] == p && s[|p| + 1..] == q;
    IndexOfIs(s, ':', |p|);
  }

  lemma PrefixSplit(s: string) returns (p: string, q: string)
    requires ReadPrefix(s).0.Some?
    ensures s == p + ":" + q && ':' !in p
    ensures Trim(p) != "" && Trim(q) != "" && !HasSpace(Trim(p))
    ensures ReadPrefix(s) == (Some(Trim(p)), Trim(q))
  {
    hide Trim;
    var colon := IndexOf(s, ':');
    p, q := s[..colon], s[colon + 1..];
  }

  lemma ParseSplit(before: string, text: string)
    requires '#' !in before && Trim(before) != ""
    ensures ParsePart(before + "#" + text)
         == SplitTarget(ReadPrefix(Trim(before)), ReadPrefix(before + "#" + text), Trim(text))
  {
    var s := before + "#" + text;
    assert s[..|before|] == before && s[|before| + 1..] == text;
    IndexOfIs(s, '#', |before|);
  }

  lemma ParseUnsplit(s: string)
    requires '#' !in s || s[0] == '#'
    ensures ParsePart(s) == UnsplitTarget(ReadPrefix(s))
  {
    if '#' !in s {
      IndexOfNone(s, '#');
    } else {
      IndexOfIs(s, '#', 0);
      TrimBlank(s[..0]);
    }
  }

  /** An unsplit part has no `#`, or starts with one. */
  lemma UnsplitHash(part: string)
    requires Trimmed(part) && SplitFragment(part).1.None?
    ensures '#' !in part || part[0] == '#'
  {
    hide SplitFragment;
    if IndexOf(part, '#') > 0 { HashSplits(part); }
  }

  lemma HashSplits(part: string)
    requires Trimmed(part) && IndexOf(part, '#') > 0
    ensures SplitFragment(part).1.Some?
  {
    hide Trim;
    var before := part[..IndexOf(part, '#')];
    TrimBlank(before);
    assert before[0] == part[0];
  }

  // ----- stability of one part

  ghost predicate Part(s: string) {
    Trimmed(s) && '|' !in s
  }

  ghost predicate Stable(part: string) {
    var t := ParsePart(part);
    Part(PrintPart(t)) && ParsePart(PrintPart(t)) == t
  }

  lemma PrintedPart(p: string, q: string)
    requires '|' !in p + ":" + q && Trim(p) != "" && Trim(q) != ""
    ensures Part(Trim(p) + ":" + Trim(q))
  {
    hide Trim;
    TrimTrims(p);
    TrimTrims(q);
    SubtextLacks(p + ":" + q, p, ":" + q, '|') by { assert p + ":" + q == p + (":" + q); }
    SubtextLacks(p + ":" + q, p + ":", q, '|');
    TrimKeepsChars(p, '|');
    TrimKeepsChars(q, '|');
  }

  /** A prefix written back reads as itself. */
  lemma PrintedPrefix(p: string, q: string)
    requires ':' !in p && '|' !in p + ":" + q
    requires Trim(p) != "" && Trim(q) != "" && !HasSpace(Trim(p))
    ensures Part(Trim(p) + ":" + Trim(q))
    ensures ReadPrefix(Trim(p) + ":" + Trim(q)) == (Some(Trim(p)), Trim(q))
  {
    hide Trim;
    TrimTrims(p);
    TrimTrims(q);
    PrintedPart(p, q);
    TrimKeepsChars(p, ':');
    TrimOfTrimmed(Trim(p));
    TrimOfTrimmed(Trim(q));
    PrefixAt(Trim(p), Trim(q));
  }

  /** No heading is split off: the text is a target, with or without a domain. */
  lemma StableUnsplit(part: string)
    requires Part(part) && SplitFragment(part).1.None?
    ensures Stable(part)
  {
    if ReadPrefix(part).0.Some? {
      var p, q := PrefixSplit(part);
      PrintedPrefix(p, q);
      UnsplitHash(part);
      PrintedHash(part, p, q);
      ParseUnsplit(Trim(p) + ":" + Trim(q));
    }
  }

  lemma PrintedHash(part: string, p: string, q: string)
    requires part == p + ":" + q && Trimmed(part) && Trim(p) != ""
    requires '#' !in part || part[0] == '#'
    ensures '#' !in Trim(p) + ":" + Trim(q) || (Trim(p) + ":" + Trim(q))[0] == '#'
  {
    if '#' !in part {
      SubtextLacks(part, p, ":" + q, '#');
      SubtextLacks(part, p + ":", q, '#');
      TrimKeepsChars(p, '#');
      TrimKeepsChars(q, '#');
    } else {
      TrimBlank(p);
      assert p != "" && p[0] == part[0];
      var b := TrimKeepsHead(p);
      assert Trim(p)[0] == p[0];
    }
  }

  // A part with a `#`: `core` is the text before it without its trailing
  // blanks `z`, and the text after it is trimmed on its right.

  ghost predicate Hashed(core: string, z: string, text: string) {
    && core != "" && Trimmed(core) && '#' !in core && '|' !in core
    && Blank(z) && '#' !in z && '|' !in z
    && '|' !in text && (text != "" ==> !IsSpace(text[|text| - 1]))
  }

  lemma HashedParts(part: string) returns (core: string, z: string, text: string)
    requires Part(part) && SplitFragment(part).1.Some?
    ensures Hashed(core, z, text) && part == core + z + "#" + text
  {
    hide Trim;
    var hash := IndexOf(part, '#');
    var before := part[..hash];
    text := part[hash + 1..];
    assert part == before + "#" + text;
    TrimBlank(before);
    z := TrimKeepsHead(before);
    core := Trim(before);
    TrimTrims(before);
    SubtextLacks(before, core, z, '#');
    assert part == core + (z + "#" + text);
    SubtextLacks(part, core, z + "#" + text, '|');
    SubtextLacks(z + "#" + text, z, "#" + text, '|');
    SubtextLacks(part, before + "#", text, '|');
  }

  lemma HashedParse(core: string, z: string, text: string)
    requires Hashed(core, z, text)
    ensures ParsePart(core + z + "#" + text)
         == SplitTarget(ReadPrefix(core), ReadPrefix(core + z + "#" + text), Trim(text))
  {
    hide Trim, ReadPrefix;
    assert core + z == "" + core + z;
    TrimIs("", core, z);
    ParseSplit(core + z, text);
  }

  lemma TrimmedJoin(a: string, b: string)
    requires a != "" && Trimmed(a) && (b == "" || !IsSpace(b[|b| - 1]))
    ensures Trimmed(a + b)
  {}

  /** The domain read before the `#` is the domain of the whole part. */
  lemma DomainOfWhole(core: string, z: string, text: string, p: string, q: string, a: string, b: string)
    requires Hashed(core, z, text) && core == p + ":" + q && ':' !in p
    requires Trim(p) != "" && Trim(q) != "" && !HasSpace(Trim(p))
    requires q == a + Trim(q) + b && Blank(a)
    ensures var w := Trim(q) + (b + z) + "#" + text;
            && Trimmed(w)
            && ReadPrefix(core + z + "#" + text) == (Some(Trim(p)), w)
            && ReadPrefix(Trim(p) + ":" + w) == (Some(Trim(p)), w)
            && Part(Trim(p) + ":" + w)
  {
    hide Trim, ReadPrefix;
    var w := Trim(q) + (b + z) + "#" + text;
    var part := core + z + "#" + text;
    TrimTrims(q);
    TrimmedJoin(Trim(q), (b + z) + "#" + text);
    assert w == Trim(q) + ((b + z) + "#" + text);
    TrimIs(a, w, "");
    assert part == p + ":" + (a + w + "");
    PrefixAt(p, a + w + "");
    PrintedPrefix(p, a + w + "");
  }

  /** The printed text splits at the same `#`, with the same domain and target before it. */
  lemma PrintedCore(core: string, z: string, text: string, p: string, q: string, a: string, b: string)
    requires Hashed(core, z, text) && core == p + ":" + q && ':' !in p
    requires Trim(p) != "" && Trim(q) != "" && !HasSpace(Trim(p))
    requires q == a + Trim(q) + b && Blank(b)
    ensures Hashed(Trim(p) + ":" + Trim(q), b + z, text)
    ensures ReadPrefix(Trim(p) + ":" + Trim(q)) == (Some(Trim(p)), Trim(q))
  {
    hide Trim, ReadPrefix;
    PrintedPrefix(p, q);
    forall c | c == '#' || c == '|'
      ensures c !in Trim(p) + ":" + Trim(q) && c !in b
    {
      SubtextLacks(core, p, ":" + q, c);
      SubtextLacks(core, p + ":", q, c);
      TrimKeepsChars(p, c);
      TrimKeepsChars(q, c);
      SubtextLacks(q, a + Trim(q), b, c);
    }
  }

  /** The text before the `#` has a domain: it is the domain of the whole part too, and `whole` is set. */
  lemma StableDomain(core: string, z: string, text: string)
    requires Hashed(core, z, text) && ReadPrefix(core).0.Some?
    ensures Stable(core + z + "#" + text)
  {
    hide Trim, ReadPrefix;
    var p, q := PrefixSplit(core);
    var a, b := TrimParts(q);
    var x, w := Trim(q), Trim(q) + (b + z) + "#" + text;
    var part := core + z + "#" + text;
    DomainOfWhole(core, z, text, p, q, a, b);
    HashedParse(core, z, text);
    assert PrintPart(ParsePart(part)) == Trim(p) + ":" + w;
    TrimTrims(q);
    var core' := Trim(p) + ":" + x;
    assert Trim(p) + ":" + w == core' + (b + z) + "#" + text;
    PrintedCore(core, z, text, p, q, a, b);
    HashedParse(core', b + z, text);
  }

  lemma NoDomain(s: string)
    requires ReadPrefix(s).0.None?
    ensures ReadPrefix(s) == (None, s)
  {}

  /** The text before the `#` names no domain, and the whole part names one: no `whole`. */
  lemma StableForeign(core: string, z: string, text: string)
    requires Hashed(core, z, text) && ReadPrefix(core).0.None?
    requires ReadPrefix(core + z + "#" + text).0.Some?
    ensures Stable(core + z + "#" + text)
  {
    hide Trim, ReadPrefix, SplitFragment;
    NoDomain(core);
    HashedParse(core, z, text);
    if text == "" {
      TrimOfTrimmed("");
      ParseUnsplit(core);
    } else {
      var e := TrimKeepsTail(text);
      TrimTrims(text);
      ForeignPrefixStays(core, z, text, e);
      PrintedForeign(core, text);
    }
  }

  /** A heading kept without its blanks splits off again. */
  lemma PrintedForeign(core: string, text: string)
    requires Hashed(core, "", text) && ReadPrefix(core) == (None, core) && Trim(text) != ""
    requires ReadPrefix(core + "#" + Trim(text)).0.Some?
    ensures var w := core + "#" + Trim(text);
            Part(w) && ParsePart(w) == LinkTarget(None, core, Some(Trim(text)), None, None)
  {
    hide Trim, ReadPrefix, ParsePart;
    var h := Trim(text);
    TrimTrims(text);
    TrimOfTrimmed(h);
    TrimKeepsChars(text, '|');
    assert core + "" == core;
    HashedParse(core, "", h);
    TrimmedJoin(core, "#" + h);
    assert core + "#" + h == core + ("#" + h);
  }

  /** The whole part keeps a domain when the blanks around the `#` go. */
  lemma ForeignPrefixStays(core: string, z: string, text: string, e: string)
    requires Hashed(core, z, text)
    requires text == e + Trim(text) && Blank(e) && Trim(text) != "" && !IsSpace(Trim(text)[0])
    requires ReadPrefix(core).0.None? && ReadPrefix(core + z + "#" + text).0.Some?
    ensures ReadPrefix(core + "#" + Trim(text)).0.Some?
  {
    hide Trim, ReadPrefix;
    var h := Trim(text);
    if ':' in core {
      var colon := IndexOf(core, ':');
      var p, q := core[..colon], core[colon + 1..];
      assert core == p + ":" + q;
      ColonBefore(p, q, z, text, h);
    } else {
      var part := core + z + "#" + text;
      var p, q := PrefixSplit(part);
      var k := |core| + |z|;
      assert |p| > k by {
        assert forall i | 0 <= i < |z| :: IsSpace(z[i]);
        assert part[|p|] == ':';
      }
      var u := text[..|p| - k - 1];
      assert text == part[k + 1..] && p == part[..|p|] && q == part[|p| + 1..];
      assert text == u + ":" + q;
      assert p == core + z + "#" + u;
      ColonAfter(core, z, u, q, e, h);
    }
  }

  lemma ColonBefore(p: string, q: string, z: string, text: string, h: string)
    requires ':' !in p
    requires ReadPrefix(p + ":" + q).0.None? && ReadPrefix(p + ":" + q + z + "#" + text).0.Some?
    ensures ReadPrefix(p + ":" + q + "#" + h).0.Some?
  {
    hide Trim, ReadPrefix;
    PrefixAt(p, q);
    PrefixAt(p, q + z + "#" + text);
    assert p + ":" + q + z + "#" + text == p + ":" + (q + z + "#" + text);
    PrefixAt(p, q + "#" + h);
    assert p + ":" + q + "#" + h == p + ":" + (q + "#" + h);
    assert (q + "#" + h)[|q|] == '#';
    TrimBlank(q + "#" + h);
  }

  lemma ColonAfter(core: string, z: string, u: string, q: string, e: string, h: string)
    requires core != "" && Trimmed(core) && Blank(z) && Blank(e)
    requires ':' !in core + z + "#" + u && u + ":" + q == e + h && h != "" && !IsSpace(h[0])
    requires !HasSpace(Trim(core + z + "#" + u)) && Trim(q) != ""
    ensures ReadPrefix(core + "#" + h).0.Some?
  {
    hide Trim, ReadPrefix;
    assert |e| <= |u| by { assert (u + ":" + q)[|u|] == ':'; }
    assert u == e + u[|e|..] by { assert (u + ":" + q)[..|e|] == (e + h)[..|e|]; }
    var u' := u[|e|..];
    assert h == u' + ":" + q;
    ForeignWord(core, z, e, u');
    assert core + z + "#" + u == core + (z + "#" + u);
    SubtextLacks(core + z + "#" + u, core, z + "#" + u, ':');
    SubtextLacks(core + z + "#" + u, core + z + "#" + e, u', ':');
    assert core + "#" + h == core + "#" + u' + ":" + q;
    PrefixAt(core + "#" + u', q);
  }

  lemma BlankInside(s: string, a: string, z: string, b: string)
    requires s == a + z + b && Blank(z)
    ensures z != "" ==> HasSpace(s)
  {
    assert z != "" ==> s[|a|] == z[0];
  }

  lemma BlankTail(s: string, a: string, b: string)
    requires s == a + b && Blank(s)
    ensures Blank(b)
  {
    assert forall i | 0 <= i < |b| :: b[i] == s[|a| + i];
  }

  /** A prefix without whitespace keeps none when the blanks around its `#` go. */
  lemma ForeignWord(core: string, z: string, e: string, u: string)
    requires core != "" && Trimmed(core) && Blank(z) && Blank(e) && (u != "" ==> !IsSpace(u[0]))
    requires !HasSpace(Trim(core + z + "#" + (e + u)))
    ensures Trim(core + "#" + u) != "" && !HasSpace(Trim(core + "#" + u))
  {
    hide Trim;
    var p := core + z + "#" + (e + u);
    var k := |core| + |z|;
    assert p[k] == '#' && p[0] == core[0];
    var b := TrimKeepsHead(p);
    var word := Trim(p);
    assert k < |word|;
    assert word == core + z + word[k..] by { assert word == p[..|word|]; }
    BlankInside(word, core, z, word[k..]);
    if e == "" {
      assert core + "#" + u == p;
    } else {
      assert p[k + 1] == e[0];
      assert |word| == k + 1;
      assert b == p[k + 1..] == e + u;
      BlankTail(b, e, u);
      assert core + z == core;
      assert p[..k + 1] == core + "#";
      assert word == p[..k + 1];
      assert word == core + "#" + u;
      TrimTrims(p);
      TrimOfTrimmed(word);
    }
  }

  lemma StablePart(part: string)
    requires Part(part)
    ensures Stable(part)
  {
    hide Trim, ReadPrefix, SplitFragment;
    if SplitFragment(part).1.None? {
      StableUnsplit(part);
    } else {
      var core, z, text := HashedParts(part);
      if ReadPrefix(core).0.Some? {
        StableDomain(core, z, text);
      } else if ReadPrefix(part).0.Some? {
        StableForeign(core, z, text);
      } else {
        NoDomain(core);
        NoDomain(part);
        HashedParse(core, z, text);
      }
    }
  }

  lemma AliasPart(inner: string)
    ensures Part(SplitAlias(inner).0)
    ensures SplitAlias(inner).1.Some? ==> SplitAlias(inner).1.value != "" && Trimmed(SplitAlias(inner).1.value)
  {
    hide Trim;
    var bar := IndexOf(inner, '|');
    var part := if bar < 0 then inner else inner[..bar];
    TrimTrims(part);
    TrimKeepsChars(part, '|');
    TrimTrims(inner[bar + 1..]);
  }

  lemma PrintedAlias(part: string, alias: Option<string>)
    requires Part(part) && (alias.Some? ==> alias.value != "" && Trimmed(alias.value))
    ensures SplitAlias(if alias.None? then part else part + "|" + alias.value) == (part, alias)
  {
    hide Trim;
    TrimOfTrimmed(part);
    if alias.None? {
      IndexOfNone(part, '|');
    } else {
      var s := part + "|" + alias.value;
      IndexOfIs(s, '|', |part|);
      assert s[..|part|] == part && s[|part| + 1..] == alias.value;
      TrimOfTrimmed(alias.value);
    }
  }

  /**
   * Printing a parsed bracket text and parsing it again gives the same
   * target in every field, for every bracket text.
   */
  lemma ParsePrintStable(inner: string)
    ensures ParseWikiTarget(InnerOf(ParseWikiTarget(inner))) == ParseWikiTarget(inner)
  {
    hide Trim, ParsePart, SplitAlias;
    var t := ParseWikiTarget(inner);
    var (part, alias) := SplitAlias(inner);
    AliasPart(inner);
    StablePart(part);
    assert PrintPart(t) == PrintPart(ParsePart(part));
    PrintedAlias(PrintPart(t), alias);
  }

  lemma NoAlias(part: string)
    ensures ParsePart(part).alias == None
  {}

  // ----- the readings a resolver tries

  /** The text before the `#`, which the fallback reading takes as a title. */
  function Title(part: string): string {
    Trim(SplitFragment(part).0)
  }

  /** The targets one bracket text is looked up as, in order; `known` holds the domain spellings, when there are any. */
  function Readings(inner: string, known: Option<set<string>>): seq<LinkTarget> {
    var parsed := ParseWikiTarget(inner);
    var first :=
      if parsed.whole.None? then []
      else [LinkTarget(parsed.domain, parsed.whole.value, None, None, None)];
    if parsed.domain.None? || known.None? || parsed.domain.value in known.value then first + [parsed]
    else first + [parsed, LinkTarget(None, Title(SplitAlias(inner).0), parsed.fragment, None, None)]
  }

  /** No blank stands beside the first colon of `title`. */
  predicate TightColon(title: string) {
    var colon := IndexOf(title, ':');
    && (colon > 0 ==> !IsSpace(title[colon - 1]))
    && (0 <= colon < |title| - 1 ==> !IsSpace(title[colon + 1]))
  }

  lemma TitleOfPrinted(part: string)
    requires Part(part) && ParsePart(part).domain.Some?
    ensures var t := ParsePart(part);
            && ReadPrefix(Title(part)) == (t.domain, t.target)
            && Trimmed(Title(part))
            && Title(PrintPart(t)) == t.domain.value + ":" + t.target
  {
    hide Trim, ReadPrefix;
    if SplitFragment(part).1.None? {
      var p, q := PrefixSplit(part);
      TrimOfTrimmed(part);
      UnsplitHash(part);
      PrintedPart(p, q);
      PrintedHash(part, p, q);
      UnsplitTitle(Trim(p) + ":" + Trim(q));
    } else {
      var core, z, text := HashedParts(part);
      HashedParse(core, z, text);
      HashedTitle(core, z, text);
      var p, q := PrefixSplit(core);
      var a, b := TrimParts(q);
      DomainOfWhole(core, z, text, p, q, a, b);
      PrintedCore(core, z, text, p, q, a, b);
      HashedTitle(Trim(p) + ":" + Trim(q), b + z, text);
      assert Trim(p) + ":" + (Trim(q) + (b + z) + "#" + text) == Trim(p) + ":" + Trim(q) + (b + z) + "#" + text;
    }
  }

  lemma UnsplitTitle(s: string)
    requires Trimmed(s) && ('#' !in s || s[0] == '#')
    ensures Title(s) == s
  {
    hide Trim;
    TrimOfTrimmed(s);
    if '#' !in s {
      IndexOfNone(s, '#');
    } else {
      IndexOfIs(s, '#', 0);
      TrimBlank(s[..0]);
    }
  }

  lemma HashedTitle(core: string, z: string, text: string)
    requires Hashed(core, z, text)
    ensures Title(core + z + "#" + text) == core
  {
    hide Trim;
    var s := core + z + "#" + text;
    assert s[..|core + z|] == core + z && s[|core + z| + 1..] == text;
    IndexOfIs(s, '#', |core + z|);
    assert core + z == "" + core + z;
    TrimIs("", core, z);
  }

  /** A title reads `domain:target` exactly as printed when no blank stands beside its colon. */
  lemma TightTitle(title: string)
    requires Trimmed(title) && ReadPrefix(title).0.Some?
    ensures TightColon(title) <==> title == ReadPrefix(title).0.value + ":" + ReadPrefix(title).1
  {
    hide Trim, ReadPrefix;
    var p, q := PrefixSplit(title);
    var a, b := TrimParts(p);
    var c, d := TrimParts(q);
    assert title[..|p|] == p;
    IndexOfIs(title, ':', |p|);
    assert title[0] == p[0] && title[|title| - 1] == q[|q| - 1];
    assert title[|p| - 1] == p[|p| - 1] && title[|p| + 1] == q[0];
    if TightColon(title) {
      TrimOfTrimmed(p);
      TrimOfTrimmed(q);
    }
    if title == Trim(p) + ":" + Trim(q) {
      assert |a| + |b| + |c| + |d| == 0;
      assert p == Trim(p) && q == Trim(q);
    }
  }

  /**
   * A printed target asks the resolver the same question as its bracket text
   * exactly when no fallback is tried or no blank stands beside the colon:
   * `[[Log: Weekly]]` prints as `Log:Weekly`, and the fallback title differs.
   */
  lemma PrintedReadings(inner: string, known: Option<set<string>>)
    ensures Readings(InnerOf(ParseWikiTarget(inner)), known) == Readings(inner, known)
        <==> var domain := ParseWikiTarget(inner).domain;
             || domain.None? || known.None? || domain.value in known.value
             || TightColon(Title(SplitAlias(inner).0))
  {
    hide Trim, ParsePart, SplitAlias, Title, PrintPart, TightColon;
    var t := ParseWikiTarget(inner);
    var (part, alias) := SplitAlias(inner);
    ParsePrintStable(inner);
    AliasPart(inner);
    StablePart(part);
    SameWritten(part, alias);
    NoAlias(part);
    PrintedAlias(PrintPart(t), alias);
    if t.domain.Some? {
      TitleOfPrinted(part);
      TightTitle(Title(part));
      var r, r' := Readings(inner, known), Readings(InnerOf(t), known);
      assert r == r' <==> r[|r| - 1] == r'[|r'| - 1];
    }
  }

  lemma SameWritten(part: string, alias: Option<string>)
    ensures PrintPart(ParsePart(part).(alias := alias)) == PrintPart(ParsePart(part))
  {}

  lemma LooseColonParts()
    ensures SplitAlias("a: b") == ("a: b", None) && Title("a: b") == "a: b"
  {
    hide Trim;
    PrintedAlias("a: b", None);
    UnsplitTitle("a: b");
  }

  lemma LooseColonParse()
    ensures ParsePart("a: b") == LinkTarget(Some("a"), "b", None, None, None)
  {
    hide Trim, ReadPrefix, ParsePart;
    ParseUnsplit("a: b");
    TrimOfTrimmed("a");
    TrimIs(" ", "b", "");
    assert " " + "b" + "" == " b" && "a" + ":" + " b" == "a: b";
    PrefixAt("a", " b");
  }

  /** The printed form of `[[a: b]]` has lost the title its fallback looks for. */
  lemma LooseColonExample()
    ensures ParseWikiTarget("a: b").domain == Some("a")
    ensures InnerOf(ParseWikiTarget("a: b")) == "a:b"
    ensures Readings("a: b", Some({})) != Readings("a:b", Some({}))
  {
    hide Trim, Readings, ParsePart, SplitAlias, Title;
    LooseColonParts();
    LooseColonParse();
    PrintedReadings("a: b", Some({}));
    IndexOfIs("a: b", ':', 1);
  }
}
