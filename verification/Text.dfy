/** Strings as the browser code reads them: trimming, searching, splitting and joining. */
module Text {
  /** What `trim()` removes and `\s` matches. */
  predicate IsSpace(c: char) {
    || '\t' <= c <= '\r' || c == ' ' || c == '\U{00A0}' || c == '\U{1680}'
    || '\U{2000}' <= c <= '\U{200A}' || c == '\U{2028}' || c == '\U{2029}'
    || c == '\U{202F}' || c == '\U{205F}' || c == '\U{3000}' || c == '\U{FEFF}'
  }

  ghost predicate Blank(s: string) {
    forall i | 0 <= i < |s| :: IsSpace(s[i])
  }

  ghost predicate Trimmed(s: string) {
    s == "" || (!IsSpace(s[0]) && !IsSpace(s[|s| - 1]))
  }

  function TrimStart(s: string): string {
    if s == "" || !IsSpace(s[0]) then s else TrimStart(s[1..])
  }

  function TrimEnd(s: string): string {
    if s == "" || !IsSpace(s[|s| - 1]) then s else TrimEnd(s[..|s| - 1])
  }

  function Trim(s: string): string {
    TrimEnd(TrimStart(s))
  }

  lemma {:induction false} TrimStartParts(s: string) returns (a: string)
    ensures s == a + TrimStart(s) && Blank(a)
    ensures TrimStart(s) == "" || !IsSpace(TrimStart(s)[0])
  {
    if s == "" || !IsSpace(s[0]) {
      a := "";
    } else {
      var a' := TrimStartParts(s[1..]);
      a := [s[0]] + a';
    }
  }

  lemma {:induction false} TrimEndParts(s: string) returns (b: string)
    ensures s == TrimEnd(s) + b && Blank(b)
    ensures TrimEnd(s) == "" || !IsSpace(TrimEnd(s)[|TrimEnd(s)| - 1])
  {
    if s == "" || !IsSpace(s[|s| - 1]) {
      b := "";
    } else {
      var b' := TrimEndParts(s[..|s| - 1]);
      b := b' + [s[|s| - 1]];
    }
  }

  lemma {:induction false} TrimStartIs(a: string, rest: string)
    requires Blank(a) && (rest == "" || !IsSpace(rest[0]))
    ensures TrimStart(a + rest) == rest
  {
    if a == "" {
      assert a + rest == rest;
    } else {
      TrimStartIs(a[1..], rest);
      assert (a + rest)[1..] == a[1..] + rest;
    }
  }

  lemma {:induction false} TrimEndIs(rest: string, b: string)
    requires Blank(b) && (rest == "" || !IsSpace(rest[|rest| - 1]))
    ensures TrimEnd(rest + b) == rest
  {
    if b == "" {
      assert rest + b == rest;
    } else {
      TrimEndIs(rest, b[..|b| - 1]);
      assert (rest + b)[..|rest + b| - 1] == rest + b[..|b| - 1];
    }
  }

  /** A trim is decided by its shape: a trimmed core between two blank runs. */
  lemma TrimIs(a: string, core: string, b: string)
    requires Blank(a) && Trimmed(core) && Blank(b)
    ensures Trim(a + core + b) == core
  {
    hide TrimStart, TrimEnd;
    if core == "" {
      TrimStartIs(a + b, "");
      assert a + core + b == a + b + "";
      TrimEndIs("", "");
      assert "" + "" == "";
    } else {
      TrimStartIs(a, core + b);
      assert a + core + b == a + (core + b);
      TrimEndIs(core, b);
    }
  }

  /** The blank runs a trim takes away. */
  lemma TrimParts(s: string) returns (a: string, b: string)
    ensures s == a + Trim(s) + b && Blank(a) && Blank(b) && Trimmed(Trim(s))
  {
    hide TrimStart, TrimEnd;
    a := TrimStartParts(s);
    b := TrimEndParts(TrimStart(s));
    var t := TrimStart(s);
    assert t != "" ==> t[0] == (Trim(s) + b)[0];
  }

  lemma TrimTrims(s: string)
    ensures Trimmed(Trim(s))
  {
    var a, b := TrimParts(s);
  }

  lemma TrimOfTrimmed(s: string)
    requires Trimmed(s)
    ensures Trim(s) == s
  {
    hide Trim;
    TrimIs("", s, "");
    assert "" + s + "" == s;
  }

  lemma TrimBlank(s: string)
    ensures Trim(s) == "" <==> Blank(s)
  {
    hide Trim;
    var a, b := TrimParts(s);
    if Blank(s) {
      TrimIs(s, "", "");
      assert s + "" + "" == s;
    }
  }

  lemma TrimKeepsHead(s: string) returns (b: string)
    requires s != "" && !IsSpace(s[0])
    ensures Trim(s) != "" && s == Trim(s) + b && Blank(b)
  {
    b := TrimEndParts(s);
    assert s == "" + b ==> s == b;
  }

  lemma TrimKeepsTail(s: string) returns (a: string)
    requires s != "" && !IsSpace(s[|s| - 1])
    ensures Trim(s) != "" && s == a + Trim(s) && Blank(a)
  {
    a := TrimStartParts(s);
    var t := TrimStart(s);
    assert t == "" ==> s == a;
    assert t != "" ==> t[|t| - 1] == s[|s| - 1];
  }

  lemma TrimKeepsChars(s: string, c: char)
    requires c !in s
    ensures c !in Trim(s)
  {
    hide Trim;
    var a, b := TrimParts(s);
    SubtextLacks(s, a + Trim(s), b, c);
    SubtextLacks(a + Trim(s), a, Trim(s), c);
  }

  lemma SubtextLacks(s: string, a: string, b: string, c: char)
    requires s == a + b && c !in s
    ensures c !in a && c !in b
  {
    assert forall i | 0 <= i < |a| :: a[i] == s[i];
    assert forall i | 0 <= i < |b| :: b[i] == s[|a| + i];
  }

  /** The first index of `c`, or -1. */
  function IndexOf(s: string, c: char): (r: int)
    ensures -1 <= r < |s|
    ensures r >= 0 ==> s[r] == c && c !in s[..r]
    ensures r < 0 ==> c !in s
  {
    if s == "" then -1
    else if s[0] == c then 0
    else
      var r := IndexOf(s[1..], c);
      assert r >= 0 ==> s[..r + 1] == [s[0]] + s[1..][..r];
      if r < 0 then -1 else r + 1
  }

  lemma IndexOfIs(s: string, c: char, r: nat)
    requires r < |s| && s[r] == c && c !in s[..r]
    ensures IndexOf(s, c) == r
  {
    var k := IndexOf(s, c);
    assert forall i | 0 <= i < r :: s[..r][i] == s[i];
    assert forall i | 0 <= i < k :: s[..k][i] == s[i];
  }

  lemma IndexOfNone(s: string, c: char)
    requires c !in s
    ensures IndexOf(s, c) == -1
  {
    assert forall i | 0 <= i < |s| :: s[i] in s;
  }

  /** The last index of `c`, or -1. */
  function LastIndexOf(s: string, c: char): (r: int)
    ensures -1 <= r < |s|
  {
    if s == "" then -1
    else
      var r := LastIndexOf(s[1..], c);
      if r >= 0 then r + 1 else if s[0] == c then 0 else -1
  }

  lemma {:induction false} LastIndexAppend(a: string, b: string, c: char)
    ensures LastIndexOf(a + [c] + b, c) == |a| + 1 + LastIndexOf(b, c)
  {
    var s := a + [c] + b;
    if a == "" {
      assert s[1..] == b;
    } else {
      assert s[1..] == a[1..] + [c] + b;
      LastIndexAppend(a[1..], b, c);
    }
  }

  lemma {:induction false} LastIndexNone(s: string, c: char)
    requires c !in s
    ensures LastIndexOf(s, c) == -1
  {
    if s != "" { LastIndexNone(s[1..], c); }
  }

  /** Whether `pat` stands in `s` at `i`. */
  predicate At(s: string, pat: string, i: int) {
    0 <= i && i + |pat| <= |s| && s[i..i + |pat|] == pat
  }

  /** `s.indexOf(pat, from)`: the first match at or after `from`, or -1. */
  function Find(s: string, pat: string, from: nat): (r: int)
    requires from <= |s|
    ensures r == -1 || (from <= r && At(s, pat, r))
    ensures forall i | from <= i && (r < 0 || i < r) :: !At(s, pat, i)
    decreases |s| - from
  {
    if At(s, pat, from) then from
    else if from == |s| then -1
    else Find(s, pat, from + 1)
  }

  lemma FindIs(s: string, pat: string, from: nat, i: nat)
    requires from <= i && At(s, pat, i)
    requires forall j | from <= j < i :: !At(s, pat, j)
    ensures Find(s, pat, from) == i
  {}

  /** `s.split(sep)` for a one-character separator: never empty. */
  function Split(s: string, sep: char): (parts: seq<string>)
    ensures |parts| >= 1
    ensures forall p | p in parts :: sep !in p
  {
    if s == "" then [""]
    else
      var rest := Split(s[1..], sep);
      if s[0] == sep then [""] + rest else [[s[0]] + rest[0]] + rest[1..]
  }

  function Join(parts: seq<string>, sep: char): string {
    if |parts| == 0 then ""
    else if |parts| == 1 then parts[0]
    else parts[0] + [sep] + Join(parts[1..], sep)
  }

  lemma {:induction false} JoinSplit(s: string, sep: char)
    ensures Join(Split(s, sep), sep) == s
  {
    if s != "" {
      JoinSplit(s[1..], sep);
      var rest := Split(s[1..], sep);
      if s[0] != sep {
        var parts := [[s[0]] + rest[0]] + rest[1..];
        if |rest| > 1 { assert parts[1..] == rest[1..]; }
        assert Join(parts, sep) == [s[0]] + Join(rest, sep);
      }
      assert s == [s[0]] + s[1..];
    }
  }

  lemma {:induction false} SplitPlain(s: string, sep: char)
    requires sep !in s
    ensures Split(s, sep) == [s]
  {
    if s != "" {
      SplitPlain(s[1..], sep);
      assert s == [s[0]] + s[1..];
    }
  }

  lemma SplitFirst(s: string, sep: char)
    requires s != ""
    ensures var rest := Split(s[1..], sep);
            Split(s, sep) == if s[0] == sep then [""] + rest else [[s[0]] + rest[0]] + rest[1..]
  {}

  lemma {:induction false} SplitAppend(a: string, b: string, sep: char)
    ensures Split(a + [sep] + b, sep) == Split(a, sep) + Split(b, sep)
  {
    var s := a + [sep] + b;
    if a == "" {
      assert s == [sep] + b && s[1..] == b;
    } else {
      SplitAppend(a[1..], b, sep);
      assert s[0] == a[0] && s[1..] == a[1..] + [sep] + b;
      SplitFirst(s, sep);
      SplitFirst(a, sep);
      hide Split;
      Prefixed(a[0], Split(a[1..], sep), Split(b, sep));
    }
  }

  lemma Prefixed(c: char, parts: seq<string>, tail: seq<string>)
    requires parts != []
    ensures [[c] + (parts + tail)[0]] + (parts + tail)[1..] == [[c] + parts[0]] + parts[1..] + tail
    ensures [""] + (parts + tail) == [""] + parts + tail
  {
    assert (parts + tail)[1..] == parts[1..] + tail;
  }

  lemma {:induction false} SplitJoin(parts: seq<string>, sep: char)
    requires |parts| >= 1
    requires forall p | p in parts :: sep !in p
    ensures Split(Join(parts, sep), sep) == parts
  {
    if |parts| == 1 {
      SplitPlain(parts[0], sep);
    } else {
      SplitPlain(parts[0], sep);
      SplitAppend(parts[0], Join(parts[1..], sep), sep);
      SplitJoin(parts[1..], sep);
      assert parts == [parts[0]] + parts[1..];
    }
  }
}
